/**
 * The messages the app publishes on its broadcast channels, and the names of those channels
 * and of the per-team storage keys. A publish is recorded as a `Post` on an outbox; delivery
 * to the listeners of a channel is the caller's business.
 */
module Channels {
  import opened Wrappers

  /** The `type`-tagged payloads the app sends; anything else a listener may see is `Unknown`. */
  datatype Message =
    | RevealResults
    | ResetResults
    | SyncNotes(notes: seq<string>)
    | Unknown(kind: string)

  /** One publish: the channel's name and the payload. */
  datatype Post = Post(channel: string, message: Message)

  /** The global channel of reveal/reset control messages. */
  const SessionChannel: string := "global_session_sync"

  /** `(48 + d) as char`: the decimal digit for d. */
  function DigitChar(d: nat): (c: char)
    requires d < 10
    ensures '0' <= c <= '9'
  {
    (48 + d) as char
  }

  /** A team number written in decimal, as a template literal `${team}` writes it. */
  function Decimal(n: nat): (s: string)
    ensures |s| >= 1
    ensures forall k :: 0 <= k < |s| ==> '0' <= s[k] <= '9'
    ensures n >= 10 <==> |s| >= 2
  {
    if n < 10 then [DigitChar(n)] else Decimal(n / 10) + [DigitChar(n % 10)]
  }

  /** Different numbers have different decimal spellings. */
  lemma {:induction false} DecimalInjective(a: nat, b: nat)
    requires Decimal(a) == Decimal(b)
    ensures a == b
  {
    if a >= 10 && b >= 10 {
      var da, db := Decimal(a), Decimal(b);
      assert da[..|da| - 1] == Decimal(a / 10);
      assert db[..|db| - 1] == Decimal(b / 10);
      DecimalInjective(a / 10, b / 10);
      assert DigitChar(a % 10) == da[|da| - 1] == DigitChar(b % 10);
    }
  }

  /** How `${selectedTeam}` prints the selected team: its number, or `null` before a choice. */
  function TeamLabel(team: Option<nat>): (s: string)
    ensures |s| >= 1
  {
    match team
    case Some(n) => Decimal(n)
    case None => "null"
  }

  /** Different selections print differently. */
  lemma TeamLabelInjective(t: Option<nat>, u: Option<nat>)
    requires TeamLabel(t) == TeamLabel(u)
    ensures t == u
  {
    LabelStartsWithDigit(t);
    LabelStartsWithDigit(u);
    if t.Some? && u.Some? {
      DecimalInjective(t.value, u.value);
    }
  }

  /** A chosen team prints as digits, no choice as `null`. */
  lemma LabelStartsWithDigit(t: Option<nat>)
    ensures t.Some? <==> '0' <= TeamLabel(t)[0] <= '9'
  {
  }

  /** `team_${selectedTeam}_sync` */
  function TeamChannel(team: Option<nat>): string
  {
    "team_" + TeamLabel(team) + "_sync"
  }

  /** `team_${selectedTeam}_notes` */
  function TeamNotesKey(team: Option<nat>): string
  {
    "team_" + TeamLabel(team) + "_notes"
  }

  /** The part between a fixed prefix and a fixed suffix determines the whole. */
  lemma FramedEqual(pre: string, x: string, y: string, post: string)
    requires pre + x + post == pre + y + post
    ensures x == y
  {
    var s := pre + x + post;
    assert |x| == |y|;
    assert x == s[|pre|..|pre| + |x|];
    assert y == s[|pre|..|pre| + |y|];
  }

  /**
   * Team channels are distinct across teams and from the global channel, so a team's note
   * messages never reach another team's listeners or the session listener; likewise for the
   * storage keys.
   */
  lemma TeamNamesSeparate(t: Option<nat>, u: Option<nat>)
    ensures TeamChannel(t) == TeamChannel(u) <==> t == u
    ensures TeamNotesKey(t) == TeamNotesKey(u) <==> t == u
    ensures TeamChannel(t) != SessionChannel
  {
    if TeamChannel(t) == TeamChannel(u) {
      FramedEqual("team_", TeamLabel(t), TeamLabel(u), "_sync");
      TeamLabelInjective(t, u);
    }
    if TeamNotesKey(t) == TeamNotesKey(u) {
      FramedEqual("team_", TeamLabel(t), TeamLabel(u), "_notes");
      TeamLabelInjective(t, u);
    }
    assert TeamChannel(t)[0] == 't' != SessionChannel[0];
  }
}
