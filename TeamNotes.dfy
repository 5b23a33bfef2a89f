/**
 * The team's shared scratchpad: an ordered list of lines whose last line is the open input
 * line. Edits are saved and broadcast after a debounce; removals are saved and broadcast at
 * once; a `SYNC_NOTES` message from another device replaces the list wholesale.
 */
module TeamNotes {
  import opened Wrappers
  import opened Channels

  /** The characters `String.prototype.trim` strips: white space and line terminators. */
  predicate IsJsWhitespace(c: char)
  {
    || c == '\t' || c == '\n' || c == '\U{000B}' || c == '\U{000C}' || c == '\r' || c == ' '
    || c == '\U{00A0}' || c == '\U{1680}' || ('\U{2000}' <= c <= '\U{200A}')
    || c == '\U{2028}' || c == '\U{2029}' || c == '\U{202F}' || c == '\U{205F}'
    || c == '\U{3000}' || c == '\U{FEFF}'
  }

  function TrimStart(s: string): (r: string)
    ensures r == [] || !IsJsWhitespace(r[0])
  {
    if |s| > 0 && IsJsWhitespace(s[0]) then TrimStart(s[1..]) else s
  }

  function TrimEnd(s: string): string
  {
    if |s| > 0 && IsJsWhitespace(s[|s| - 1]) then TrimEnd(s[..|s| - 1]) else s
  }

  /** `s.trim()` */
  function Trim(s: string): string
  {
    TrimEnd(TrimStart(s))
  }

  /** `s.trim() === ''` */
  predicate IsBlank(s: string)
  {
    Trim(s) == ""
  }

  lemma {:induction false} TrimStartEmpty(s: string)
    ensures TrimStart(s) == "" <==> forall k :: 0 <= k < |s| ==> IsJsWhitespace(s[k])
  {
    if |s| > 0 && IsJsWhitespace(s[0]) {
      TrimStartEmpty(s[1..]);
      assert forall k :: 1 <= k < |s| ==> s[k] == s[1..][k - 1];
    }
  }

  lemma {:induction false} TrimEndEmpty(s: string)
    ensures TrimEnd(s) == "" <==> forall k :: 0 <= k < |s| ==> IsJsWhitespace(s[k])
  {
    if |s| > 0 && IsJsWhitespace(s[|s| - 1]) {
      TrimEndEmpty(s[..|s| - 1]);
      assert forall k :: 0 <= k < |s| - 1 ==> s[k] == s[..|s| - 1][k];
    }
  }

  /** A line is blank exactly when every character of it is white space. */
  lemma BlankIffAllWhitespace(s: string)
    ensures IsBlank(s) <==> forall k :: 0 <= k < |s| ==> IsJsWhitespace(s[k])
  {
    TrimStartEmpty(s);
    if TrimStart(s) == "" {
      assert TrimEnd("") == "";
    } else {
      TrimEndEmpty(TrimStart(s));
    }
  }

  /** The list ends in a blank line, the open input line. */
  predicate HasOpenLine(notes: seq<string>)
  {
    |notes| >= 1 && IsBlank(notes[|notes| - 1])
  }

  /**
   * `handleNoteChange`'s new list: line `index` becomes `value`, and when the last line
   * becomes non-blank a new empty line is appended.
   */
  function EditNotes(notes: seq<string>, index: nat, value: string): (r: seq<string>)
    requires index < |notes|
    ensures |r| == if index == |notes| - 1 && !IsBlank(value) then |notes| + 1 else |notes|
    ensures r[index] == value
    ensures forall k :: 0 <= k < |notes| && k != index ==> r[k] == notes[k]
    ensures |r| > |notes| ==> r[|notes|] == ""
  {
    var edited := notes[index := value];
    if index == |notes| - 1 && !IsBlank(value) then edited + [""] else edited
  }

  /** An edit keeps the open line; an edit of the last line leaves one even when there was none. */
  lemma EditKeepsOpenLine(notes: seq<string>, index: nat, value: string)
    requires index < |notes|
    requires HasOpenLine(notes) || index == |notes| - 1
    ensures HasOpenLine(EditNotes(notes, index, value))
  {
    assert Trim("") == "";
  }

  /** `ns.filter(keep)`: the lines `keep` accepts, in order. */
  function Filter(ns: seq<string>, keep: string -> bool): (r: seq<string>)
    ensures |r| <= |ns|
  {
    if ns == [] then []
    else (if keep(ns[0]) then [ns[0]] else []) + Filter(ns[1..], keep)
  }

  /** The debounced save's test, `n => n.trim() !== '' || n === last`. */
  function KeepRule(last: string): string -> bool
  {
    x => !IsBlank(x) || x == last
  }

  /** What the debounced save writes for the list `ns`: the filter against its last line. */
  function SaveFilter(ns: seq<string>): (r: seq<string>)
    ensures ns == [] ==> r == []
    ensures |r| <= |ns|
  {
    if ns == [] then [] else Filter(ns, KeepRule(ns[|ns| - 1]))
  }

  /** The filter keeps each accepted line as often as it occurs, and drops every other line. */
  lemma {:induction false} FilterCounts(ns: seq<string>, keep: string -> bool, x: string)
    ensures multiset(Filter(ns, keep))[x] == if keep(x) then multiset(ns)[x] else 0
  {
    if ns != [] {
      FilterCounts(ns[1..], keep, x);
      var head := if keep(ns[0]) then [ns[0]] else [];
      assert multiset(Filter(ns, keep)) == multiset(head) + multiset(Filter(ns[1..], keep));
      assert ns == [ns[0]] + ns[1..];
      assert multiset(ns) == multiset([ns[0]]) + multiset(ns[1..]);
      assert multiset(head)[x] == if keep(x) then multiset([ns[0]])[x] else 0;
    }
  }

  /** An accepted last line stays the last line. */
  lemma {:induction false} FilterEndsWithLast(ns: seq<string>, keep: string -> bool)
    requires ns != [] && keep(ns[|ns| - 1])
    ensures var r := Filter(ns, keep); r != [] && r[|r| - 1] == ns[|ns| - 1]
  {
    if |ns| > 1 {
      FilterEndsWithLast(ns[1..], keep);
      assert ns[1..][|ns[1..]| - 1] == ns[|ns| - 1];
    }
  }

  /** Only accepted lines survive. */
  lemma {:induction false} FilterOnlyKept(ns: seq<string>, keep: string -> bool)
    ensures forall k :: 0 <= k < |Filter(ns, keep)| ==> keep(Filter(ns, keep)[k])
  {
    if ns != [] {
      FilterOnlyKept(ns[1..], keep);
    }
  }

  /** Filtering what the filter already kept changes nothing. */
  lemma {:induction false} FilterIdempotent(ns: seq<string>, keep: string -> bool)
    ensures Filter(Filter(ns, keep), keep) == Filter(ns, keep)
  {
    if ns != [] {
      FilterIdempotent(ns[1..], keep);
      var head := if keep(ns[0]) then [ns[0]] else [];
      var rest := Filter(ns[1..], keep);
      if head != [] {
        assert (head + rest)[0] == ns[0];
        assert (head + rest)[1..] == rest;
      } else {
        assert head + rest == rest;
      }
    }
  }

  /** The indices from `from` on of the lines `keep` accepts, in increasing order. */
  function KeptFrom(ns: seq<string>, keep: string -> bool, from: nat): seq<nat>
    requires from <= |ns|
    decreases |ns| - from
  {
    if from == |ns| then []
    else (if keep(ns[from]) then [from] else []) + KeptFrom(ns, keep, from + 1)
  }

  /** Each kept index lies in `from..|ns|` and points at an accepted line. */
  lemma {:induction false} KeptFromInRange(ns: seq<string>, keep: string -> bool, from: nat)
    requires from <= |ns|
    ensures forall k :: 0 <= k < |KeptFrom(ns, keep, from)| ==>
              from <= KeptFrom(ns, keep, from)[k] < |ns| && keep(ns[KeptFrom(ns, keep, from)[k]])
    decreases |ns| - from
  {
    if from < |ns| {
      KeptFromInRange(ns, keep, from + 1);
    }
  }

  /** The kept indices are strictly increasing. */
  lemma {:induction false} KeptFromIncreasing(ns: seq<string>, keep: string -> bool, from: nat)
    requires from <= |ns|
    ensures forall k, l :: 0 <= k < l < |KeptFrom(ns, keep, from)| ==> KeptFrom(ns, keep, from)[k] < KeptFrom(ns, keep, from)[l]
    decreases |ns| - from
  {
    if from < |ns| {
      KeptFromIncreasing(ns, keep, from + 1);
      KeptFromInRange(ns, keep, from + 1);
    }
  }

  /** Every accepted line from `from` on has its index kept. */
  lemma {:induction false} KeptFromCovers(ns: seq<string>, keep: string -> bool, from: nat)
    requires from <= |ns|
    ensures forall i :: from <= i < |ns| && keep(ns[i]) ==> i in KeptFrom(ns, keep, from)
    decreases |ns| - from
  {
    if from < |ns| {
      KeptFromCovers(ns, keep, from + 1);
    }
  }

  /** The filter of the lines from `from` on picks the lines at the kept indices, in order. */
  lemma {:induction false} FilterPicksKept(ns: seq<string>, keep: string -> bool, from: nat)
    requires from <= |ns|
    ensures |Filter(ns[from..], keep)| == |KeptFrom(ns, keep, from)|
    ensures forall k :: 0 <= k < |KeptFrom(ns, keep, from)| ==>
              KeptFrom(ns, keep, from)[k] < |ns| && Filter(ns[from..], keep)[k] == ns[KeptFrom(ns, keep, from)[k]]
    decreases |ns| - from
  {
    KeptFromInRange(ns, keep, from);
    if from < |ns| {
      FilterPicksKept(ns, keep, from + 1);
      assert ns[from..][0] == ns[from] && ns[from..][1..] == ns[from + 1..];
    }
  }

  /**
   * The filter keeps the accepted lines in their order: it is the list's lines at a strictly
   * increasing sequence of indices that holds exactly the accepted lines' indices.
   */
  lemma FilterKeepsOrder(ns: seq<string>, keep: string -> bool)
    ensures var r := Filter(ns, keep);
            var idx := KeptFrom(ns, keep, 0);
            && |idx| == |r|
            && (forall k :: 0 <= k < |idx| ==> idx[k] < |ns| && r[k] == ns[idx[k]])
            && (forall k, l :: 0 <= k < l < |idx| ==> idx[k] < idx[l])
            && (forall i :: 0 <= i < |ns| ==> (i in idx <==> keep(ns[i])))
  {
    KeptFromInRange(ns, keep, 0);
    KeptFromIncreasing(ns, keep, 0);
    KeptFromCovers(ns, keep, 0);
    FilterPicksKept(ns, keep, 0);
    assert ns[0..] == ns;
  }

  /**
   * The saved list keeps the last line as its last line, holds only non-blank lines and copies
   * of the last line, keeps every such line as often as it occurs and in its order, and saving
   * it again changes nothing.
   */
  lemma SaveFilterProperties(ns: seq<string>)
    requires ns != []
    ensures var r := SaveFilter(ns);
            && r != [] && r[|r| - 1] == ns[|ns| - 1]
            && (forall k :: 0 <= k < |r| ==> !IsBlank(r[k]) || r[k] == ns[|ns| - 1])
            && (forall x :: !IsBlank(x) || x == ns[|ns| - 1] ==> multiset(r)[x] == multiset(ns)[x])
            && SaveFilter(r) == r
    ensures var r := SaveFilter(ns);
            var idx := KeptFrom(ns, KeepRule(ns[|ns| - 1]), 0);
            && |idx| == |r|
            && (forall k :: 0 <= k < |idx| ==> idx[k] < |ns| && r[k] == ns[idx[k]])
            && (forall k, l :: 0 <= k < l < |idx| ==> idx[k] < idx[l])
            && (forall i :: 0 <= i < |ns| ==> (i in idx <==> !IsBlank(ns[i]) || ns[i] == ns[|ns| - 1]))
  {
    var last := ns[|ns| - 1];
    var keep := KeepRule(last);
    var r := SaveFilter(ns);
    assert r != [] && r[|r| - 1] == last by {
      FilterEndsWithLast(ns, keep);
    }
    assert forall k :: 0 <= k < |r| ==> !IsBlank(r[k]) || r[k] == last by {
      FilterOnlyKept(ns, keep);
    }
    assert forall x :: !IsBlank(x) || x == last ==> multiset(r)[x] == multiset(ns)[x] by {
      forall x | keep(x)
        ensures multiset(Filter(ns, keep))[x] == multiset(ns)[x]
      {
        FilterCounts(ns, keep, x);
      }
    }
    assert SaveFilter(r) == r by {
      FilterEndsWithLast(ns, keep);
      FilterIdempotent(ns, keep);
    }
    FilterKeepsOrder(ns, keep);
  }


  /**
   * The filter compares with the last line by value, so a cleared line in the middle of the
   * list is saved whenever the open line is empty too.
   */
  lemma SaveKeepsClearedMiddleLine()
    ensures SaveFilter(["plan", "", ""]) == ["plan", "", ""]
    ensures SaveFilter(["plan", " ", ""]) == ["plan", ""]
  {
    assert Trim("") == "";
    assert Trim(" ") == "" by {
      assert TrimStart(" ") == TrimStart(" "[1..]);
      assert " "[1..] == "";
    }
    assert !IsBlank("plan") by {
      assert TrimStart("plan") == "plan";
      assert TrimEnd("plan") == "plan";
    }
  }

  /**
   * `removeNote`'s new list: a list of at most one line becomes `['']`; otherwise the line at
   * `index` is dropped (no line is when `index` is out of range).
   */
  function RemoveAt(notes: seq<string>, index: int): (r: seq<string>)
    ensures |notes| <= 1 ==> r == [""]
    ensures |notes| > 1 && 0 <= index < |notes| ==>
              && |r| == |notes| - 1
              && (forall k :: 0 <= k < index ==> r[k] == notes[k])
              && (forall k :: index <= k < |r| ==> r[k] == notes[k + 1])
    ensures |notes| > 1 && !(0 <= index < |notes|) ==> r == notes
  {
    if |notes| <= 1 then [""]
    else if 0 <= index < |notes| then notes[..index] + notes[index + 1..]
    else notes
  }

  /**
   * Removing a line other than the open line takes out exactly that one line and keeps the
   * open line.
   */
  lemma RemoveAtExactlyOne(notes: seq<string>, index: nat)
    requires 1 < |notes| && index < |notes| - 1
    ensures multiset(RemoveAt(notes, index)) == multiset(notes) - multiset{notes[index]}
    ensures HasOpenLine(notes) ==> HasOpenLine(RemoveAt(notes, index))
  {
    assert notes == notes[..index] + [notes[index]] + notes[index + 1..];
  }

  /** The notes a team selection loads: the saved list if there is one, else the current list. */
  function LoadNotes(store: map<string, seq<string>>, team: Option<nat>, current: seq<string>): (r: seq<string>)
    ensures team.None? || team.value == 0 ==> r == current
    ensures team.Some? && team.value != 0 && TeamNotesKey(team) in store ==> r == store[TeamNotesKey(team)]
    ensures TeamNotesKey(team) !in store ==> r == current
  {
    if team.Some? && team.value != 0 && TeamNotesKey(team) in store then store[TeamNotesKey(team)] else current
  }

  /**
   * A team that saves `ns` loads back the filtered list, whatever another team saves
   * afterwards.
   */
  lemma SaveThenLoad(store: map<string, seq<string>>, t: nat, ns: seq<string>, u: nat, other: seq<string>, current: seq<string>)
    requires t != 0 && u != t
    ensures var saved := store[TeamNotesKey(Some(t)) := SaveFilter(ns)];
            && LoadNotes(saved, Some(t), current) == SaveFilter(ns)
            && LoadNotes(saved[TeamNotesKey(Some(u)) := other], Some(t), current) == SaveFilter(ns)
  {
    TeamNamesSeparate(Some(t), Some(u));
  }

  /** The debounced save a `handleNoteChange` schedules: the team it was made for and its list. */
  datatype PendingSave = PendingSave(team: Option<nat>, notes: seq<string>)

  /**
   * The notes state of one session: the selected team, the list, the syncing indicator, the
   * pending debounced save (the timer reference), the device's key-value store and the posts
   * published so far.
   */
  class NotesSync {
    var selectedTeam: Option<nat>
    var notes: seq<string>
    var isSyncing: bool
    var pending: Option<PendingSave>
    var store: map<string, seq<string>>
    var outbox: seq<Post>

    /** A fresh session on a device whose store holds `saved`. */
    constructor (saved: map<string, seq<string>>)
      ensures selectedTeam == None && notes == [""] && !isSyncing && pending == None
      ensures store == saved && outbox == []
    {
      selectedTeam := None;
      notes := [""];
      isSyncing := false;
      pending := None;
      store := saved;
      outbox := [];
    }

    /**
     * Choosing a team. A different team loads its saved notes, if any, and listens on its
     * channel; the effect is keyed on the selection, so choosing the selected team again does
     * nothing.
     */
    method SelectTeam(team: nat)
      modifies this
      ensures selectedTeam == Some(team)
      ensures old(selectedTeam) != Some(team) ==> notes == LoadNotes(old(store), Some(team), old(notes))
      ensures old(selectedTeam) == Some(team) ==> notes == old(notes)
      ensures isSyncing == old(isSyncing) && pending == old(pending)
      ensures store == old(store) && outbox == old(outbox)
    {
      if selectedTeam == Some(team) {
        return;
      }
      selectedTeam := Some(team);
      if team != 0 && TeamNotesKey(selectedTeam) in store {
        notes := store[TeamNotesKey(selectedTeam)];
      }
    }

    /** `handleNoteChange`: edit line `index`, show syncing, and restart the debounce. */
    method HandleNoteChange(index: nat, value: string)
      requires index < |notes|
      modifies this
      ensures notes == EditNotes(old(notes), index, value)
      ensures isSyncing && pending == Some(PendingSave(selectedTeam, notes))
      ensures selectedTeam == old(selectedTeam) && store == old(store) && outbox == old(outbox)
    {
      var newNotes := notes;
      newNotes := newNotes[index := value];
      if index == |notes| - 1 && !IsBlank(value) {
        newNotes := newNotes + [""];
      }
      notes := newNotes;
      isSyncing := true;
      pending := Some(PendingSave(selectedTeam, newNotes));
    }

    /**
     * The debounce timer fires: save the filtered list under the team's key, publish the
     * unfiltered list on the team's channel, and clear the syncing indicator.
     */
    method DebounceElapsed()
      requires pending.Some?
      modifies this
      ensures store == old(store)[TeamNotesKey(old(pending).value.team) := SaveFilter(old(pending).value.notes)]
      ensures outbox == old(outbox) + [Post(TeamChannel(old(pending).value.team), SyncNotes(old(pending).value.notes))]
      ensures !isSyncing && pending == None
      ensures selectedTeam == old(selectedTeam) && notes == old(notes)
    {
      var save := pending.value;
      var filteredNotes := SaveFilter(save.notes);
      store := store[TeamNotesKey(save.team) := filteredNotes];
      outbox := outbox + [Post(TeamChannel(save.team), SyncNotes(save.notes))];
      isSyncing := false;
      pending := None;
    }

    /**
     * `removeNote`: with at most one line, reset to `['']` and stop; otherwise drop the line,
     * then save and publish the same new list at once. A pending debounced save is left to fire.
     */
    method RemoveNote(index: int)
      modifies this
      ensures notes == RemoveAt(old(notes), index)
      ensures |old(notes)| <= 1 ==> store == old(store) && outbox == old(outbox)
      ensures |old(notes)| > 1 ==> store == old(store)[TeamNotesKey(selectedTeam) := notes]
      ensures |old(notes)| > 1 ==> outbox == old(outbox) + [Post(TeamChannel(selectedTeam), SyncNotes(notes))]
      ensures selectedTeam == old(selectedTeam) && isSyncing == old(isSyncing) && pending == old(pending)
    {
      if |notes| <= 1 {
        notes := [""];
        return;
      }
      var newNotes := RemoveAt(notes, index);
      notes := newNotes;
      store := store[TeamNotesKey(selectedTeam) := newNotes];
      outbox := outbox + [Post(TeamChannel(selectedTeam), SyncNotes(newNotes))];
    }

    /**
     * A post reaches this session. The team listener exists once a team is selected and takes
     * only `SYNC_NOTES` on that team's channel: it replaces the list and starts the syncing pulse.
     */
    method Deliver(post: Post)
      modifies this
      ensures if selectedTeam.Some? && selectedTeam.value != 0 && post.channel == TeamChannel(selectedTeam)
                 && post.message.SyncNotes?
              then notes == post.message.notes && isSyncing
              else notes == old(notes) && isSyncing == old(isSyncing)
      ensures selectedTeam == old(selectedTeam) && pending == old(pending)
      ensures store == old(store) && outbox == old(outbox)
    {
      if selectedTeam.Some? && selectedTeam.value != 0 && post.channel == TeamChannel(selectedTeam) {
        match post.message
        case SyncNotes(received) =>
          notes := received;
          isSyncing := true;
        case _ =>
      }
    }

    /**
     * `removeNote` with the pending debounced save cancelled first, so that no older list can
     * overwrite the removal once it is saved.
     */
    method RemoveNoteCancellingSave(index: int)
      modifies this
      ensures notes == RemoveAt(old(notes), index)
      ensures pending == None
      ensures |old(notes)| > 1 ==> store == old(store)[TeamNotesKey(selectedTeam) := notes]
      ensures |old(notes)| > 1 ==> outbox == old(outbox) + [Post(TeamChannel(selectedTeam), SyncNotes(notes))]
      ensures |old(notes)| <= 1 ==> store == old(store) && outbox == old(outbox)
      ensures isSyncing == (old(isSyncing) && old(pending).None?)
      ensures selectedTeam == old(selectedTeam)
    {
      if pending.Some? {
        pending := None;
        isSyncing := false;
      }
      RemoveNote(index);
    }

    /** The syncing pulse's timer ends. */
    method SyncPulseElapsed()
      modifies this
      ensures !isSyncing
      ensures selectedTeam == old(selectedTeam) && notes == old(notes) && pending == old(pending)
      ensures store == old(store) && outbox == old(outbox)
    {
      isSyncing := false;
    }
  }

  /** "a" and "b" are not blank. */
  lemma LettersNotBlank()
    ensures !IsBlank("a") && !IsBlank("b") && IsBlank("")
  {
    assert TrimStart("a") == "a" && TrimEnd("a") == "a";
    assert TrimStart("b") == "b" && TrimEnd("b") == "b";
  }

  /**
   * As written: a line removed within the debounce window of an edit comes back. The team
   * types "a" and "b" and removes "a" at once; the removal's post reaches this session's own
   * team listener, so the screen shows the list without "a". Then the edit's save fires: the
   * store and the team's channel get the list with "a" again, and when that post reaches this
   * session's own listener the screen shows "a" again too.
   */
  method StaleSaveAfterRemove() returns (afterRemove: seq<string>, stored: seq<string>, shown: seq<string>, lastPost: seq<string>)
    ensures afterRemove == ["b", ""]
    ensures stored == ["a", "b", ""] && lastPost == ["a", "b", ""] && shown == ["a", "b", ""]
  {
    LettersNotBlank();
    var session := new NotesSync(map[]);
    session.SelectTeam(1);
    session.HandleNoteChange(0, "a");
    session.HandleNoteChange(1, "b");
    assert session.notes == ["a", "b", ""];
    session.RemoveNote(0);
    assert session.notes == ["b", ""];
    session.Deliver(session.outbox[|session.outbox| - 1]);
    afterRemove := session.notes;
    session.DebounceElapsed();
    assert SaveFilter(["a", "b", ""]) == ["a", "b", ""];
    stored := session.store[TeamNotesKey(Some(1))];
    lastPost := session.outbox[|session.outbox| - 1].message.notes;
    session.Deliver(session.outbox[|session.outbox| - 1]);
    shown := session.notes;
  }

  /**
   * Corrected: with the pending save cancelled by the removal, no save is left to fire, and
   * the store, the last post and the screen, once the removal's post has reached this
   * session's own listener, all hold the list without "a".
   */
  method RemovalStaysRemoved() returns (stored: seq<string>, shown: seq<string>, lastPost: seq<string>, saveLeft: bool)
    ensures shown == ["b", ""] && stored == shown && lastPost == shown
    ensures !saveLeft
  {
    LettersNotBlank();
    var session := new NotesSync(map[]);
    session.SelectTeam(1);
    session.HandleNoteChange(0, "a");
    session.HandleNoteChange(1, "b");
    assert session.notes == ["a", "b", ""];
    session.RemoveNoteCancellingSave(0);
    assert session.notes == ["b", ""];
    session.Deliver(session.outbox[|session.outbox| - 1]);
    stored := session.store[TeamNotesKey(Some(1))];
    shown := session.notes;
    lastPost := session.outbox[|session.outbox| - 1].message.notes;
    saveLeft := session.pending.Some?;
  }
}
