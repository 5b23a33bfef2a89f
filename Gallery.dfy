/**
 * The team's information-card gallery: which slice of the shared card images a team sees,
 * how the zoomed view steps through that slice, and the label shown on each card.
 */
module Gallery {
  import opened Wrappers

  /**
   * `xs.slice(start, end)` for non-negative bounds: both are clamped to the length, and an end
   * at or before the start gives the empty list.
   */
  function Slice<T>(xs: seq<T>, start: nat, end: nat): (r: seq<T>)
    ensures start <= end <= |xs| ==> r == xs[start..end]
    ensures end <= start || |xs| <= start ==> r == []
    ensures |r| <= |xs|
  {
    var s := if start <= |xs| then start else |xs|;
    var e := if end <= |xs| then end else |xs|;
    if e <= s then [] else xs[s..e]
  }

  /** `Math.floor((t - 1) * (total / maxTeams))`, in exact arithmetic. */
  function TeamStart(t: nat, total: nat, maxTeams: nat): nat
    requires t >= 1 && maxTeams >= 1
  {
    ((t - 1) * total) / maxTeams
  }

  /** `Math.floor(t * (total / maxTeams))`, in exact arithmetic. */
  function TeamEnd(t: nat, total: nat, maxTeams: nat): nat
    requires maxTeams >= 1
  {
    (t * total) / maxTeams
  }

  /**
   * `teamAssignedImages`: no images before a team is chosen (`null` or 0) or when the number
   * of teams is 0; otherwise team t's share of the images.
   */
  function TeamImages<T>(images: seq<T>, team: Option<nat>, maxTeams: nat): (r: seq<T>)
    ensures team.None? || team.value == 0 || maxTeams == 0 ==> r == []
    ensures team.Some? && 1 <= team.value <= maxTeams ==>
              TeamStart(team.value, |images|, maxTeams) <= TeamEnd(team.value, |images|, maxTeams) <= |images|
    ensures team.Some? && 1 <= team.value <= maxTeams ==>
              r == images[TeamStart(team.value, |images|, maxTeams)..TeamEnd(team.value, |images|, maxTeams)]
    ensures team.Some? && maxTeams >= 1 && team.value > maxTeams ==> r == []
  {
    if team.None? || team.value == 0 || maxTeams == 0 then []
    else
      var t := team.value;
      TeamBoundsInRange(t, |images|, maxTeams);
      Slice(images, TeamStart(t, |images|, maxTeams), TeamEnd(t, |images|, maxTeams))
  }

  /** A multiple of a positive m strictly below m is not positive. */
  lemma MulBelow(d: int, m: int)
    requires m >= 1 && d * m < m
    ensures d <= 0
  {
  }

  /** Quotient and remainder are the only ones: x == q * m + r with 0 <= r < m fixes both. */
  lemma DivModUnique(x: int, m: int, q: int, r: int)
    requires m >= 1 && 0 <= r < m && x == q * m + r
    ensures x / m == q && x % m == r
  {
    var q0, r0 := x / m, x % m;
    assert x == q0 * m + r0;
    assert (q - q0) * m == r0 - r;
    MulBelow(q - q0, m);
    MulBelow(q0 - q, m);
  }

  /** Floor division by a positive number is monotone. */
  lemma DivMonotone(a: nat, b: nat, m: nat)
    requires a <= b && m >= 1
    ensures a / m <= b / m
  {
    var qa, qb := a / m, b / m;
    assert a == qa * m + a % m;
    assert b == qb * m + b % m;
    assert (qa - qb) * m == (a - b) + (b % m - a % m);
    MulBelow(qa - qb, m);
  }

  lemma MulMonotone(x: nat, y: nat, c: nat)
    requires x <= y
    ensures x * c <= y * c
  {
  }

  lemma MulDivCancel(c: nat, m: nat)
    requires m >= 1
    ensures (m * c) / m == c
  {
    DivModUnique(m * c, m, c, 0);
  }

  /**
   * A team's bounds are ordered and inside the list; for teams beyond the last one the start
   * is at the end of the list.
   */
  lemma TeamBoundsInRange(t: nat, total: nat, maxTeams: nat)
    requires t >= 1 && maxTeams >= 1
    ensures TeamStart(t, total, maxTeams) <= TeamEnd(t, total, maxTeams)
    ensures t <= maxTeams ==> TeamEnd(t, total, maxTeams) <= total
    ensures t > maxTeams ==> TeamStart(t, total, maxTeams) >= total
  {
    MulMonotone(t - 1, t, total);
    DivMonotone((t - 1) * total, t * total, maxTeams);
    MulDivCancel(total, maxTeams);
    if t <= maxTeams {
      MulMonotone(t, maxTeams, total);
      DivMonotone(t * total, maxTeams * total, maxTeams);
    } else {
      MulMonotone(maxTeams, t - 1, total);
      DivMonotone(maxTeams * total, (t - 1) * total, maxTeams);
    }
  }

  /** Team t's slice ends exactly where team t + 1's begins. */
  lemma TeamsAdjacent(t: nat, total: nat, maxTeams: nat)
    requires t >= 1 && maxTeams >= 1
    ensures TeamEnd(t, total, maxTeams) == TeamStart(t + 1, total, maxTeams)
  {
  }

  /** The images of teams 1..k one after another. */
  function TeamsUpTo<T>(images: seq<T>, k: nat, maxTeams: nat): seq<T>
    requires maxTeams >= 1
  {
    if k == 0 then [] else TeamsUpTo(images, k - 1, maxTeams) + TeamImages(images, Some(k), maxTeams)
  }

  /** Teams 1..k together see exactly the images before team k's end, in order. */
  lemma {:induction false} TeamsUpToIsPrefix<T>(images: seq<T>, k: nat, maxTeams: nat)
    requires 1 <= maxTeams && k <= maxTeams
    ensures TeamEnd(k, |images|, maxTeams) <= |images|
    ensures TeamsUpTo(images, k, maxTeams) == images[..TeamEnd(k, |images|, maxTeams)]
  {
    if k == 0 {
      assert TeamEnd(0, |images|, maxTeams) == 0 by {
        assert 0 * |images| == 0;
      }
    } else {
      TeamsUpToIsPrefix(images, k - 1, maxTeams);
      TeamBoundsInRange(k, |images|, maxTeams);
      var s := TeamStart(k, |images|, maxTeams);
      var e := TeamEnd(k, |images|, maxTeams);
      assert TeamEnd(k - 1, |images|, maxTeams) == s;
      assert TeamsUpTo(images, k, maxTeams) == images[..s] + images[s..e];
      PrefixThenSlice(images, s, e);
    }
  }

  /** A prefix followed by the slice after it is the longer prefix. */
  lemma PrefixThenSlice<T>(xs: seq<T>, s: nat, e: nat)
    requires s <= e <= |xs|
    ensures xs[..s] + xs[s..e] == xs[..e]
  {
  }

  /**
   * The teams' slices partition the images: taken in team order they are the whole list, each
   * image exactly once.
   */
  lemma TeamsPartitionImages<T>(images: seq<T>, maxTeams: nat)
    requires maxTeams >= 1
    ensures TeamsUpTo(images, maxTeams, maxTeams) == images
  {
    TeamsUpToIsPrefix(images, maxTeams, maxTeams);
    MulDivCancel(|images|, maxTeams);
  }

  /** When the number of teams divides the number of images, every team gets the same share. */
  lemma EvenShares<T>(images: seq<T>, t: nat, maxTeams: nat, share: nat)
    requires 1 <= t <= maxTeams && |images| == share * maxTeams
    ensures |TeamImages(images, Some(t), maxTeams)| == share
  {
    TeamBoundsInRange(t, |images|, maxTeams);
    assert (t - 1) * |images| == maxTeams * ((t - 1) * share);
    assert t * |images| == maxTeams * (t * share);
    MulDivCancel((t - 1) * share, maxTeams);
    MulDivCancel(t * share, maxTeams);
    assert t * share - (t - 1) * share == share;
  }

  /** The shipped 108 cards over the default 12 teams: nine cards for each team. */
  lemma DefaultTeamsGetNineCards<T>(images: seq<T>, t: nat)
    requires |images| == 108 && 1 <= t <= 12
    ensures |TeamImages(images, Some(t), 12)| == 9
  {
    EvenShares(images, t, 12, 9);
  }

  /** The previous card, `(z - 1 + len) % len`: from the first card back to the last. */
  function ZoomPrev(z: nat, len: nat): (r: nat)
    requires z < len
    ensures r < len
    ensures z > 0 ==> r == z - 1
    ensures z == 0 ==> r == len - 1
  {
    (z - 1 + len) % len
  }

  /** The next card, `(z + 1) % len`: from the last card on to the first. */
  function ZoomNext(z: nat, len: nat): (r: nat)
    requires z < len
    ensures r < len
    ensures z < len - 1 ==> r == z + 1
    ensures z == len - 1 ==> r == 0
  {
    (z + 1) % len
  }

  /** Previous and next undo each other. */
  lemma ZoomInverse(z: nat, len: nat)
    requires z < len
    ensures ZoomPrev(ZoomNext(z, len), len) == z
    ensures ZoomNext(ZoomPrev(z, len), len) == z
  {
  }

  /** Pressing next k times. */
  function ZoomNextTimes(z: nat, len: nat, k: nat): (r: nat)
    requires z < len
    ensures r < len
  {
    if k == 0 then z else ZoomNext(ZoomNextTimes(z, len, k - 1), len)
  }

  /** Pressing next k times moves k cards on, around the circle. */
  lemma {:induction false} ZoomNextTimesIsShift(z: nat, len: nat, k: nat)
    requires z < len
    ensures ZoomNextTimes(z, len, k) == (z + k) % len
  {
    if k > 0 {
      ZoomNextTimesIsShift(z, len, k - 1);
      NextOfRemainder(z + k - 1, len);
    }
  }

  /** One step on from position `x % len` is position `(x + 1) % len`. */
  lemma NextOfRemainder(x: nat, len: nat)
    requires len >= 1
    ensures ZoomNext(x % len, len) == (x + 1) % len
  {
    var p, q := x % len, x / len;
    assert x == q * len + p;
    if p < len - 1 {
      DivModUnique(x + 1, len, q, p + 1);
    } else {
      assert x + 1 == (q + 1) * len + 0;
      DivModUnique(x + 1, len, q + 1, 0);
    }
  }

  /** Pressing next once per card comes back to the card started from. */
  lemma ZoomFullCircle(z: nat, len: nat)
    requires z < len
    ensures ZoomNextTimes(z, len, len) == z
  {
    ZoomNextTimesIsShift(z, len, len);
    DivModUnique(z + len, len, 1, z);
  }

  /**
   * `parts[parts.length - 1]` of `url.split('/')`: everything after the last `/`, or the whole
   * string when it has none.
   */
  function LastSegment(s: string): (r: string)
    ensures '/' !in r
    ensures |r| <= |s| && r == s[|s| - |r|..]
    ensures |r| < |s| ==> s[|s| - |r| - 1] == '/'
  {
    if s == [] then []
    else if s[|s| - 1] == '/' then []
    else LastSegment(s[..|s| - 1]) + [s[|s| - 1]]
  }

  /** `pat` occurs in `s` at index i. */
  predicate MatchAt(s: string, pat: string, i: nat)
  {
    i + |pat| <= |s| && s[i..i + |pat|] == pat
  }

  /** The first index at or after `from` where `pat` occurs in `s`, if any. */
  function IndexOf(s: string, pat: string, from: nat): (r: Option<nat>)
    requires from <= |s|
    ensures r.Some? ==> from <= r.value && MatchAt(s, pat, r.value)
    ensures r.Some? ==> forall j :: from <= j < r.value ==> !MatchAt(s, pat, j)
    ensures r.None? ==> forall j :: from <= j <= |s| ==> !MatchAt(s, pat, j)
    decreases |s| - from
  {
    if from + |pat| > |s| then None
    else if s[from..from + |pat|] == pat then Some(from)
    else if from == |s| then None
    else IndexOf(s, pat, from + 1)
  }

  /** `s.replace(pat, '')` with a string pattern: the first occurrence only is removed. */
  function RemoveFirst(s: string, pat: string): (r: string)
    ensures IndexOf(s, pat, 0).None? ==> r == s
    ensures IndexOf(s, pat, 0).Some? ==> |r| == |s| - |pat|
    ensures forall k :: 0 <= k < |r| ==> r[k] in s
  {
    match IndexOf(s, pat, 0)
    case None => s
    case Some(i) => s[..i] + s[i + |pat|..]
  }

  /** `getImageLabel`: the last path segment with the first `.jpg` removed. */
  function ImageLabel(url: string): (r: string)
    ensures '/' !in r
    ensures |r| <= |url|
  {
    RemoveFirst(LastSegment(url), ".jpg")
  }

  /** The last segment of `dir/name` is `name` when `name` has no `/`. */
  lemma {:induction false} LastSegmentAfterSlash(dir: string, name: string)
    requires '/' !in name
    ensures LastSegment(dir + "/" + name) == name
    decreases |name|
  {
    var s := dir + "/" + name;
    if name == [] {
      assert s[|s| - 1] == '/';
    } else {
      assert s[..|s| - 1] == dir + "/" + name[..|name| - 1];
      LastSegmentAfterSlash(dir, name[..|name| - 1]);
      assert name == name[..|name| - 1] + [name[|name| - 1]];
    }
  }

  /** In `name.jpg`, with no `.` in `name`, the first `.jpg` is the one that ends it. */
  lemma FirstJpgEndsName(name: string)
    requires '.' !in name
    ensures IndexOf(name + ".jpg", ".jpg", 0) == Some(|name|)
  {
    var file := name + ".jpg";
    assert MatchAt(file, ".jpg", |name|) by {
      assert file[|name|..|name| + 4] == ".jpg";
    }
    forall j | 0 <= j < |name|
      ensures !MatchAt(file, ".jpg", j)
    {
      assert file[j] == name[j];
      if j + 4 <= |file| {
        assert file[j..j + 4][0] == file[j];
      }
    }
  }

  /**
   * A card stored as `dir/name.jpg`, with no `/` and no `.` in `name`, is labelled `name`.
   */
  lemma ImageLabelOfCard(dir: string, name: string)
    requires '/' !in name && '.' !in name
    ensures ImageLabel(dir + "/" + name + ".jpg") == name
  {
    var file := name + ".jpg";
    assert '/' !in file by {
      assert forall k :: 0 <= k < |file| ==> file[k] == if k < |name| then name[k] else ".jpg"[k - |name|];
    }
    assert dir + "/" + name + ".jpg" == dir + "/" + file;
    LastSegmentAfterSlash(dir, file);
    FirstJpgEndsName(name);
    assert file[..|name|] + file[|name| + 4..] == name;
  }

  /** The first card of the shared list is labelled `A-1`. */
  lemma FirstCardLabel()
    ensures ImageLabel("https://i.ibb.co/gbG1Gh6p/A-1.jpg") == "A-1"
  {
    ImageLabelOfCard("https://i.ibb.co/gbG1Gh6p", "A-1");
    assert "https://i.ibb.co/gbG1Gh6p" + "/" + "A-1" + ".jpg" == "https://i.ibb.co/gbG1Gh6p/A-1.jpg";
  }
}
