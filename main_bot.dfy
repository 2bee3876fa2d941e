/** The bot in main.py: every `/giveaway` posts a message with a view whose
    first button counts the entrants, registers the giveaway under that
    message's id, and at the deadline takes the first `winners` entrants of
    the set's iteration order. */
module MainBot {
  import opened Text
  import opened Ledger

  /** The enter button's label, `f"🎉 {len(entries)}"`: after the emoji and
      a space comes a decimal numeral whose value is the count. */
  function CountLabel(n: nat): (r: string)
    ensures |r| > 2 && r[..2] == "\U{1F389} "
    ensures IsNumeral(r[2..]) && DigitsValue(r[2..]) == n
  {
    var r := "\U{1F389} " + NatToString(n);
    assert r[2..] == NatToString(n);
    r
  }

  /** Different counts give different labels, so the label shows the count. */
  lemma CountLabelDeterminesCount(a: nat, b: nat)
    ensures CountLabel(a) == CountLabel(b) <==> a == b
  {
    if CountLabel(a) == CountLabel(b) {
      assert CountLabel(a)[2..] == NatToString(a);
      assert CountLabel(b)[2..] == NatToString(b);
    }
  }

  /** `", ".join(users) if users else "No participants yet."`, for the
      entrants in iteration order: one line, the fixed text exactly when
      there are none, and otherwise a mention list that reads back to the
      order. */
  function EntriesText(order: seq<UserId>): (r: string)
    ensures '\n' !in r
    ensures r == NoParticipantsText <==> |order| == 0
    ensures |order| > 0 ==> ReadMentionList(r) == Some(order)
  {
    if |order| > 0 then
      ReadMentionListOf(order);
      assert ReadMention(NoParticipantsText) == None;
      MentionList(order)
    else NoParticipantsText
  }

  const ParticipantsHeader: string := "**Participants:**"

  /** The Participants button's reply: two lines, the header and the
      entries text. */
  function ParticipantsReply(order: seq<UserId>): (r: string)
    ensures SplitOn('\n', r) == [ParticipantsHeader, EntriesText(order)]
  {
    SplitTwoLines(ParticipantsHeader, EntriesText(order));
    ParticipantsHeader + "\n" + EntriesText(order)
  }

  /** For the entrants `s` listed in some order, the listing is "No
      participants yet." exactly when `s` is empty; otherwise it is the
      mentions of all of them, each once, and reading it back gives that
      order. */
  lemma ParticipantsShape(order: seq<UserId>, s: set<UserId>)
    requires IsEnumeration(order, s)
    ensures EntriesText(order) == NoParticipantsText <==> s == {}
    ensures s != {} ==> ReadMentionList(EntriesText(order)) == Some(order) && |order| == |s|
  {
    EnumerationSize(order, s);
    if s != {} {
      ReadMentionListOf(order);
      assert ReadMention(NoParticipantsText) == None;
    } else {
      assert order == [];
    }
  }

  /** Python's `xs[:k]`: a negative `k` counts from the end, and the stop
      index is clipped to the sequence. */
  function PrefixSlice(xs: seq<UserId>, k: int): (r: seq<UserId>)
    ensures r <= xs
    ensures k >= 0 ==> |r| == if k < |xs| then k else |xs|
    ensures k < 0 ==> |r| == if |xs| + k > 0 then |xs| + k else 0
  {
    if k >= 0 then xs[..if k < |xs| then k else |xs|]
    else if |xs| + k <= 0 then []
    else xs[..|xs| + k]
  }

  /** `list(entries)[:winners]` for an enumeration `order` of `s`: the
      winners are distinct entrants; for a non-negative count there are
      min(winners, |s|) of them; for a negative count the last |winners|
      entrants of the order are dropped, which leaves none once |winners|
      reaches |s|. */
  lemma {:induction false} SelectedWinners(order: seq<UserId>, s: set<UserId>, winners: int)
    requires IsEnumeration(order, s)
    ensures var r := PrefixSlice(order, winners);
      && Distinct(r)
      && (forall x :: x in r ==> x in s)
      && (winners >= 0 ==> |r| == if winners < |s| then winners else |s|)
      && (winners < 0 ==> r + order[|r|..] == order && |order[|r|..]| == if -winners < |s| then -winners else |s|)
      && (winners < 0 && -winners >= |s| ==> r == [])
  {
    EnumerationSize(order, s);
    var r := PrefixSlice(order, winners);
    assert r == order[..|r|];
    forall i, j | 0 <= i < j < |r| ensures r[i] != r[j] {
      assert r[i] == order[i] && r[j] == order[j];
    }
    forall x | x in r ensures x in s {
      var i :| 0 <= i < |r| && r[i] == x;
      assert order[i] == x;
    }
    assert r + order[|r|..] == order;
  }

  /** What happens at the deadline. */
  datatype Ending = NoParticipants | Drawn(winnerIds: seq<UserId>)

  /** Lines 114-118 for the entrants in iteration order `order`: no winners
      exactly when nobody entered, and otherwise winners taken from the front
      of the order. */
  function EndOf(order: seq<UserId>, winners: int): (e: Ending)
    ensures e.NoParticipants? <==> |order| == 0
    ensures e.Drawn? ==> e.winnerIds <= order
  {
    if |order| == 0 then NoParticipants else Drawn(PrefixSlice(order, winners))
  }

  const EndedBanner: string := "\U{1F389} **GIVEAWAY ENDED** \U{1F389}"
  const NoParticipantsLine: string := "No participants."

  /** The content the giveaway message is edited to at the deadline: the
      banner alone after a draw, with "No participants." below it otherwise. */
  function EndedContent(e: Ending): (t: string)
    ensures EndedBanner <= t
    ensures t == EndedBanner <==> e.Drawn?
    ensures e.NoParticipants? ==> SplitOn('\n', t) == [EndedBanner, NoParticipantsLine]
  {
    if e.NoParticipants? then
      SplitTwoLines(EndedBanner, NoParticipantsLine);
      EndedBanner + "\n" + NoParticipantsLine
    else EndedBanner
  }

  const CongratulationPrefix: string := "Congratulations "

  function WonText(prize: string): string {
    "! You won **" + prize + "**!"
  }

  /** The channel message that congratulates the winners: between its fixed
      opening and the prize text it names exactly the winners, in order. */
  function Congratulation(winnerIds: seq<UserId>, prize: string): (r: string)
    ensures |r| == |CongratulationPrefix| + |MentionList(winnerIds)| + |WonText(prize)|
    ensures CongratulationPrefix <= r
    ensures r[|r| - |WonText(prize)|..] == WonText(prize)
    ensures var names := r[|CongratulationPrefix|..|r| - |WonText(prize)|];
      names == MentionList(winnerIds) && (|winnerIds| > 0 ==> ReadMentionList(names) == Some(winnerIds))
  {
    var names := MentionList(winnerIds);
    var r := CongratulationPrefix + names + WonText(prize);
    assert r[|CongratulationPrefix|..|r| - |WonText(prize)|] == names;
    if |winnerIds| > 0 then ReadMentionListOf(winnerIds); r else r
  }

  /** With no entrants the giveaway ends with no winners; otherwise the
      winners are the first entrants of the order and the congratulation's
      mention list reads back to exactly them, in that order. */
  lemma EndingShape(order: seq<UserId>, s: set<UserId>, winners: int)
    requires IsEnumeration(order, s)
    ensures EndOf(order, winners) == NoParticipants <==> s == {}
    ensures EndOf(order, winners).Drawn? ==>
      var ids := EndOf(order, winners).winnerIds;
      && ids == PrefixSlice(order, winners)
      && (|ids| > 0 ==> ReadMentionList(MentionList(ids)) == Some(ids))
  {
    EnumerationSize(order, s);
    var ids := PrefixSlice(order, winners);
    if s == {} {
      assert order == [];
    } else if |ids| > 0 {
      ReadMentionListOf(ids);
    }
  }

  /** Nothing checks `winners`: with entrants, the draw is empty exactly
      when the count is zero or drops every entrant, and the bot then
      congratulates an empty list of winners. */
  lemma EmptyDrawWithEntrants(order: seq<UserId>, winners: int, prize: string)
    requires |order| > 0
    ensures EndOf(order, winners) == Drawn([]) <==> winners == 0 || winners <= -|order|
    ensures Congratulation([], prize) == CongratulationPrefix + WonText(prize)
  {
    if winners == 0 || winners <= -|order| {
      assert |PrefixSlice(order, winners)| == 0;
    }
    assert MentionList([]) == "";
  }

  /** The giveaway message's registry, `giveaways`, after each start in
      `starts` has stored its giveaway under its message id. */
  function InsertAll<V>(m: map<nat, V>, starts: seq<(nat, V)>): (r: map<nat, V>)
    ensures m.Keys <= r.Keys
    ensures forall k :: k in m && k !in StartedIds(starts) ==> r[k] == m[k]
  {
    if |starts| == 0 then m
    else
      var (id, g) := starts[|starts| - 1];
      InsertAll(m, starts[..|starts| - 1])[id := g]
  }

  /** The message ids of `starts`. */
  function StartedIds<V>(starts: seq<(nat, V)>): set<nat> {
    set i | 0 <= i < |starts| :: starts[i].0
  }

  /** A start whose id no later start reuses is the one stored under it. */
  lemma {:induction false} StoredIsLastStart<V>(m: map<nat, V>, starts: seq<(nat, V)>, i: int)
    requires 0 <= i < |starts|
    requires forall j :: i < j < |starts| ==> starts[j].0 != starts[i].0
    ensures starts[i].0 in InsertAll(m, starts) && InsertAll(m, starts)[starts[i].0] == starts[i].1
  {
    var init := starts[..|starts| - 1];
    if i < |init| {
      assert init[i] == starts[i];
      forall j | i < j < |init| ensures init[j].0 != init[i].0 {
        assert init[j] == starts[j];
      }
      StoredIsLastStart(m, init, i);
    }
  }

  /** The registry only grows: after any sequence of starts its keys are the
      old keys plus the started message ids, and the last giveaway started
      under an id is the one stored there. */
  lemma {:induction false} RegistryOnlyGrows<V>(m: map<nat, V>, starts: seq<(nat, V)>)
    ensures InsertAll(m, starts).Keys == m.Keys + StartedIds(starts)
    ensures |starts| > 0 ==> InsertAll(m, starts)[starts[|starts| - 1].0] == starts[|starts| - 1].1
    ensures forall i :: 0 <= i < |starts| && (forall j :: i < j < |starts| ==> starts[j].0 != starts[i].0) ==>
      starts[i].0 in InsertAll(m, starts) && InsertAll(m, starts)[starts[i].0] == starts[i].1
  {
    if |starts| > 0 {
      var init := starts[..|starts| - 1];
      RegistryOnlyGrows(m, init);
      var last := starts[|starts| - 1];
      forall i | 0 <= i < |starts| && (forall j :: i < j < |starts| ==> starts[j].0 != starts[i].0)
        ensures starts[i].0 in InsertAll(m, starts) && InsertAll(m, starts)[starts[i].0] == starts[i].1
      {
        StoredIsLastStart(m, starts, i);
      }
      forall x | x in StartedIds(starts) ensures x in StartedIds(init) + {last.0} {
        var i :| 0 <= i < |starts| && starts[i].0 == x;
        if i < |init| {
          assert init[i].0 == x;
        }
      }
      forall x | x in StartedIds(init) ensures x in StartedIds(starts) {
        var i :| 0 <= i < |init| && init[i].0 == x;
        assert starts[i].0 == x;
      }
      assert StartedIds(starts) == StartedIds(init) + {last.0};
    }
  }

  class Giveaway {
    var message: Option<nat>
    const prize: string
    const winners: int
    const host: UserId
    const endMicros: int
    const claimMicros: int
    var entries: set<UserId>

    /** Lines 22-29; the message is only known once it has been sent. */
    constructor (message: Option<nat>, prize: string, winners: int, host: UserId, endMicros: int, claimMicros: int)
      ensures this.message == message && this.prize == prize && this.winners == winners
      ensures this.host == host && this.endMicros == endMicros && this.claimMicros == claimMicros
      ensures entries == {}
    {
      this.message := message;
      this.prize := prize;
      this.winners := winners;
      this.host := host;
      this.endMicros := endMicros;
      this.claimMicros := claimMicros;
      entries := {};
    }

    /** The deadline: the set is read in whatever order Python iterates it. */
    method End() returns (e: Ending)
      ensures exists order :: IsEnumeration(order, entries) && e == EndOf(order, winners)
      ensures e == NoParticipants <==> entries == {}
    {
      var order := ListOf(entries);
      EndingShape(order, entries, winners);
      e := EndOf(order, winners);
    }
  }

  /** The view of one giveaway: `enterLabel` is the label of its first child,
      the enter button. The three buttons' callbacks are its methods. */
  class GiveawayView {
    const giveaway: Giveaway
    var enterLabel: string

    /** The label shows how many have entered. */
    ghost predicate Valid()
      reads this, giveaway
    {
      enterLabel == CountLabel(|giveaway.entries|)
    }

    /** `update_buttons` builds the enter button from the current count. */
    constructor (g: Giveaway)
      ensures giveaway == g && Valid()
    {
      giveaway := g;
      enterLabel := CountLabel(|g.entries|);
    }

    /** The enter button: adding is idempotent and the label is recounted. */
    method Enter(user: UserId)
      modifies this, giveaway`entries
      ensures giveaway.entries == Added(old(giveaway.entries), user)
      ensures Valid()
    {
      giveaway.entries := giveaway.entries + {user};
      enterLabel := CountLabel(|giveaway.entries|);
    }

    /** The exit button: discarding a non-member changes nothing, and the
        enter button's label is recounted. */
    method Exit(user: UserId)
      modifies this, giveaway`entries
      ensures giveaway.entries == Removed(old(giveaway.entries), user)
      ensures Valid()
    {
      giveaway.entries := giveaway.entries - {user};
      enterLabel := CountLabel(|giveaway.entries|);
    }

    /** The participants button. */
    method Participants() returns (reply: string)
      ensures exists order :: IsEnumeration(order, giveaway.entries) && reply == ParticipantsReply(order)
    {
      var order := ListOf(giveaway.entries);
      reply := ParticipantsReply(order);
    }
  }

  class Registry {
    var giveaways: map<nat, Giveaway>

    constructor ()
      ensures giveaways == map[]
    {
      giveaways := map[];
    }

    /** Lines 103-108: build the giveaway and its view, post them (Discord
        gives the message the id `messageId`), then store the giveaway under
        that id. Exactly that key is added; none is removed. */
    method Start(messageId: nat, prize: string, winners: int, host: UserId, endMicros: int, claimMicros: int)
      returns (g: Giveaway, view: GiveawayView)
      modifies this
      ensures fresh(g) && fresh(view) && view.giveaway == g && view.Valid()
      ensures g.message == Some(messageId) && g.entries == {}
      ensures g.prize == prize && g.winners == winners && g.host == host
      ensures g.endMicros == endMicros && g.claimMicros == claimMicros
      ensures giveaways == old(giveaways)[messageId := g]
      ensures giveaways.Keys == old(giveaways).Keys + {messageId}
    {
      g := new Giveaway(None, prize, winners, host, endMicros, claimMicros);
      view := new GiveawayView(g);
      g.message := Some(messageId);
      giveaways := giveaways[messageId := g];
    }
  }
}
