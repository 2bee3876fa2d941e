/** The bot in index.js: the `/giveaway` command checks who calls it and
    parses its channel, duration and claim-time arguments; the giveaway it
    creates keeps a set of entrants that the Enter, Exit and Participants
    buttons act on, and at the end it announces the winner the host named. */
module IndexBot {
  import opened Text
  import opened Ledger

  /** `{'s': 1, 'm': 60, 'h': 3600, 'd': 86400}[u]`; a missing key raises. */
  function UnitSeconds(u: char): (r: Option<nat>)
    ensures r.Some? <==> u in "smhd"
    ensures r.Some? ==> 1 <= r.value <= 86400
  {
    if u == 's' then Some(1)
    else if u == 'm' then Some(60)
    else if u == 'h' then Some(3600)
    else if u == 'd' then Some(86400)
    else None
  }

  /** `int(duration[:-1]) * multiplier[duration[-1]]`, or None when either
      step raises. */
  function DurationSeconds(d: string): (r: Option<int>)
    ensures |d| <= 1 ==> r == None
    ensures r.Some? ==> UnitSeconds(d[|d| - 1]).Some?
  {
    if |d| == 0 then None
    else
      match ParseInt(d[..|d| - 1])
      case None => None
      case Some(v) =>
        match UnitSeconds(d[|d| - 1])
        case None => None
        case Some(m) => Some(v * m)
  }

  /** A number followed by one of the four units means that many units in
      seconds; the sign is kept, so "-5m" is -300. */
  lemma DurationOfNumeral(n: int, u: char)
    requires UnitSeconds(u).Some?
    ensures DurationSeconds(IntToString(n) + [u]) == Some(n * UnitSeconds(u).value)
  {
    var t := IntToString(n);
    assert (t + [u])[..|t|] == t;
    ParseIntToString(n);
  }

  /** A duration whose last character is not s, m, h or d is rejected. */
  lemma DurationNeedsUnit(d: string)
    requires |d| > 0 && UnitSeconds(d[|d| - 1]).None?
    ensures DurationSeconds(d) == None
  {
  }

  /** A duration whose part before the unit is not an integer is rejected,
      as the ValueError of `int(duration[:-1])` is. */
  lemma DurationNeedsNumber(d: string)
    requires |d| > 0 && ParseInt(d[..|d| - 1]).None?
    ensures DurationSeconds(d) == None
  {
  }

  /** The claim-time check: `int(claim_time[:-1])` must succeed and the last
      character must be `m` or `h`. */
  predicate ClaimTimeValid(c: string): (ok: bool)
    ensures ok ==> |c| >= 2 && c[|c| - 1] in "mh"
  {
    |c| > 0 && ParseInt(c[..|c| - 1]).Some? && (c[|c| - 1] == 'm' || c[|c| - 1] == 'h')
  }

  /** A number followed by a unit is a claim time exactly when the unit is
      minutes or hours; seconds and days are refused. */
  lemma ClaimTimeOfNumeral(n: int, u: char)
    ensures ClaimTimeValid(IntToString(n) + [u]) <==> u == 'm' || u == 'h'
  {
    var t := IntToString(n);
    assert (t + [u])[..|t|] == t;
    ParseIntToString(n);
  }

  /** Every accepted claim time would also be accepted as a duration, and the
      empty and one-character strings are refused like durations are. */
  lemma ClaimTimeIsDuration(c: string)
    ensures ClaimTimeValid(c) ==> DurationSeconds(c).Some?
    ensures |c| <= 1 ==> !ClaimTimeValid(c)
  {
  }

  /** datetime.max, 9999-12-31 23:59:59.999999, in microseconds after
      datetime.min, 0001-01-01 00:00:00 (3652059 days apart). */
  const MaxDatetimeMicros: int := 3652059 * 86400 * 1000000 - 1

  /** `datetime.utcnow() + timedelta(seconds=s)`, which raises OverflowError
      when the sum leaves datetime's range. Times are microseconds after
      datetime.min. */
  function EndMicros(nowMicros: int, seconds: int): (r: Option<int>)
    ensures r.Some? ==> 0 <= r.value <= MaxDatetimeMicros
    ensures r.Some? ==> r.value - nowMicros == seconds * 1000000
  {
    var t := nowMicros + seconds * 1000000;
    if 0 <= t <= MaxDatetimeMicros then Some(t) else None
  }

  /** The arguments of one `/giveaway` call and who made it. */
  datatype Command = Command(
    userId: UserId,
    ownerId: UserId,
    prize: string,
    duration: string,
    winner: UserId,
    host: UserId,
    channelId: string,
    claimTime: string)

  /** What a created giveaway is built from. */
  datatype Config = Config(
    channel: int,
    prize: string,
    durationSeconds: int,
    endMicros: int,
    winner: UserId,
    host: UserId,
    claimTime: string)

  datatype Reply =
    | OwnerOnly
    | InvalidChannel
    | InvalidDuration
    | InvalidClaimTime
    | Created(config: Config)
    | ConstructorTypeError

  const CreatedText: string := "Giveaway created!"

  /** The ephemeral message each outcome sends back: a different one for
      each outcome, "Giveaway created!" only on creation, and none at all on
      the TypeError. */
  function ReplyText(r: Reply): (t: string)
    ensures t == CreatedText <==> r.Created?
    ensures t == "" <==> r.ConstructorTypeError?
  {
    match r
    case OwnerOnly => "Only the server owner can use this command."
    case InvalidChannel => "Invalid channel ID."
    case InvalidDuration => "Invalid duration format. Use s, m, h, or d."
    case InvalidClaimTime => "Invalid claim_time format. Use m or h."
    case Created(_) => CreatedText
    case ConstructorTypeError => ""
  }

  /** Outcomes other than creation are told apart by their text alone. */
  lemma ReplyTextDistinct(r: Reply, r': Reply)
    requires !r.Created? && !r'.Created?
    ensures ReplyText(r) == ReplyText(r') <==> r == r'
  {
  }

  /** The `/giveaway` handler with the giveaway built as its fields intend.
      `reachable` is the set of channel ids `fetch_channel` finds and
      `nowMicros` the clock reading. */
  function HandleGiveaway(cmd: Command, reachable: set<int>, nowMicros: int): (r: Reply)
    requires 0 <= nowMicros <= MaxDatetimeMicros
    ensures r != ConstructorTypeError
  {
    if cmd.userId != cmd.ownerId then OwnerOnly
    else
      match ParseInt(cmd.channelId)
      case None => InvalidChannel
      case Some(ch) =>
        if ch !in reachable then InvalidChannel
        else
          match DurationSeconds(cmd.duration)
          case None => InvalidDuration
          case Some(secs) =>
            match EndMicros(nowMicros, secs)
            case None => InvalidDuration
            case Some(end) =>
              if !ClaimTimeValid(cmd.claimTime) then InvalidClaimTime
              else Created(Config(ch, cmd.prize, secs, end, cmd.winner, cmd.host, cmd.claimTime))
  }

  /** Only the caller and the owner decide a non-owner's outcome: the
      channel, duration and claim time are never looked at. */
  lemma OwnerCheckedFirst(cmd: Command, other: Command, reachable: set<int>, reachable': set<int>, now: int, now': int)
    requires 0 <= now <= MaxDatetimeMicros && 0 <= now' <= MaxDatetimeMicros
    requires cmd.userId != cmd.ownerId
    requires other.userId == cmd.userId && other.ownerId == cmd.ownerId
    ensures HandleGiveaway(cmd, reachable, now) == HandleGiveaway(other, reachable', now') == OwnerOnly
  {
  }

  /** For the owner, a channel id that does not parse or names no reachable
      channel is reported whatever the duration and claim time are. */
  lemma ChannelCheckedBeforeDuration(cmd: Command, duration: string, claimTime: string, reachable: set<int>, now: int)
    requires 0 <= now <= MaxDatetimeMicros
    requires cmd.userId == cmd.ownerId
    requires ParseInt(cmd.channelId).None? || ParseInt(cmd.channelId).value !in reachable
    ensures HandleGiveaway(cmd.(duration := duration, claimTime := claimTime), reachable, now) == InvalidChannel
  {
  }

  /** For the owner with a reachable channel, a duration that does not parse
      or whose end time leaves datetime's range is reported whatever the
      claim time is. */
  lemma DurationCheckedBeforeClaimTime(cmd: Command, claimTime: string, reachable: set<int>, now: int)
    requires 0 <= now <= MaxDatetimeMicros
    requires cmd.userId == cmd.ownerId
    requires ParseInt(cmd.channelId).Some? && ParseInt(cmd.channelId).value in reachable
    requires DurationSeconds(cmd.duration).None? || EndMicros(now, DurationSeconds(cmd.duration).value).None?
    ensures HandleGiveaway(cmd, reachable, now) == InvalidDuration
    ensures HandleGiveaway(cmd.(claimTime := claimTime), reachable, now) == InvalidDuration
  {
  }

  /** A giveaway is created exactly when all four checks pass, and it carries
      the parsed duration, the deadline that far from now and the host's
      chosen winner. */
  lemma CreatedExactlyWhenValid(cmd: Command, reachable: set<int>, now: int)
    requires 0 <= now <= MaxDatetimeMicros
    ensures HandleGiveaway(cmd, reachable, now).Created? <==>
      && cmd.userId == cmd.ownerId
      && ParseInt(cmd.channelId).Some? && ParseInt(cmd.channelId).value in reachable
      && DurationSeconds(cmd.duration).Some?
      && 0 <= now + DurationSeconds(cmd.duration).value * 1000000 <= MaxDatetimeMicros
      && ClaimTimeValid(cmd.claimTime)
    ensures HandleGiveaway(cmd, reachable, now).Created? ==>
      var c := HandleGiveaway(cmd, reachable, now).config;
      && c.channel == ParseInt(cmd.channelId).value
      && c.durationSeconds == DurationSeconds(cmd.duration).value
      && c.endMicros == now + c.durationSeconds * 1000000
      && c.prize == cmd.prize && c.winner == cmd.winner && c.host == cmd.host
      && c.claimTime == cmd.claimTime
  {
  }

  /** The handler as written. The class defines `_init_` rather than
      `__init__`, so Python gives it object's initializer, which takes no
      arguments: building the giveaway from seven arguments raises TypeError
      after every check has passed, and no giveaway ever starts. */
  function HandleGiveawayAsWritten(cmd: Command, reachable: set<int>, nowMicros: int): (r: Reply)
    requires 0 <= nowMicros <= MaxDatetimeMicros
    ensures !r.Created? && ReplyText(r) != CreatedText
  {
    var intended := HandleGiveaway(cmd, reachable, nowMicros);
    if intended.Created? then ConstructorTypeError else intended
  }

  lemma ParsesTen()
    ensures DurationSeconds("10s") == Some(10)
  {
    assert IntToString(10) == "10" by {
      assert NatToString(10) == NatToString(1) + [DigitChar(0)];
    }
    assert "10s" == IntToString(10) + ['s'];
    DurationOfNumeral(10, 's');
  }

  lemma ParsesThirtyMinutes()
    ensures ClaimTimeValid("30m")
  {
  }

  /** An owner's well-formed command: "10s" and "30m" in channel 7. */
  lemma AsWrittenCrashesOnValidCommand()
    ensures HandleGiveaway(Command(1, 1, "Nitro", "10s", 2, 1, "7", "30m"), {7}, 0).Created?
    ensures HandleGiveawayAsWritten(Command(1, 1, "Nitro", "10s", 2, 1, "7", "30m"), {7}, 0) == ConstructorTypeError
  {
    ParsesTen();
    ParsesThirtyMinutes();
    assert IntToString(7) == "7";
    ParseIntToString(7);
    assert EndMicros(0, 10) == Some(10000000);
  }

  const AlreadyEnteredText: string := "You already entered this giveaway!"
  const EnteredText: string := "You have entered the giveaway!"
  const ExitedText: string := "You have exited the giveaway."
  const NotParticipatingText: string := "You are not participating in this giveaway."

  /** `f"- {i + 1}. {user.mention}"`: one line; after "- " comes the
      number i + 1, and the line ends with the entrant's mention. */
  function ListingLine(i: nat, u: UserId): (r: string)
    ensures '\n' !in r
    ensures |r| > 2 && r[..2] == "- "
    ensures var n := DigitRun(r[2..]); n > 0 && DigitsValue(r[2..][..n]) == i + 1
    ensures |r| >= |Mention(u)| && r[|r| - |Mention(u)|..] == Mention(u)
  {
    ListingLineParts(NatToString(i + 1), Mention(u));
    "- " + NatToString(i + 1) + (". " + Mention(u))
  }

  /** A line "- " + t + ". " + m for a numeral t and a newline-free m: one
      line whose digits after "- " are exactly t, and which ends with m. */
  lemma ListingLineParts(t: string, m: string)
    requires IsNumeral(t) && '\n' !in m
    ensures var r := "- " + t + (". " + m);
      && '\n' !in r && |r| > 2 && r[..2] == "- "
      && DigitRun(r[2..]) == |t| && r[2..][..|t|] == t
      && |r| >= |m| && r[|r| - |m|..] == m
  {
    var rest := ". " + m;
    var r := "- " + t + rest;
    NumeralHasNo('\n', t);
    assert r[2..] == t + rest;
    DigitRunOf(t, rest);
  }

  function ListingLines(order: seq<UserId>): seq<string> {
    seq(|order|, i requires 0 <= i < |order| => ListingLine(i, order[i]))
  }

  const ListingHeader: string := "*Participants:*"

  /** The Participants button's reply for the entrants in iteration order:
      the fixed "No participants yet." exactly when there are none. */
  function ListingReply(order: seq<UserId>): (r: string)
    ensures r == NoParticipantsText <==> |order| == 0
  {
    if |order| == 0 then NoParticipantsText
    else
      var r := ListingHeader + "\n" + Join("\n", ListingLines(order));
      assert r[0] != NoParticipantsText[0];
      r
  }

  /** For the entrants `s` listed in some order, the reply is "No
      participants yet." exactly when `s` is empty; otherwise it is a header
      line followed by one line per entrant, line i numbered i + 1 and
      naming the i-th entrant of that order. */
  lemma ListingShape(order: seq<UserId>, s: set<UserId>)
    requires IsEnumeration(order, s)
    ensures ListingReply(order) == NoParticipantsText <==> s == {}
    ensures s != {} ==>
      && SplitOn('\n', ListingReply(order)) == [ListingHeader] + ListingLines(order)
      && |ListingLines(order)| == |s|
      && forall i :: 0 <= i < |s| ==> ListingLines(order)[i] == ListingLine(i, order[i])
  {
    EnumerationSize(order, s);
    if s != {} {
      ListingSplits(order);
    } else {
      assert order == [];
    }
  }

  lemma ListingSplits(order: seq<UserId>)
    requires |order| > 0
    ensures SplitOn('\n', ListingReply(order)) == [ListingHeader] + ListingLines(order)
  {
    ListingLinesOneLine(order);
    SplitHeaderLines(ListingHeader, ListingLines(order));
  }

  lemma ListingLinesOneLine(order: seq<UserId>)
    ensures forall i :: 0 <= i < |ListingLines(order)| ==> '\n' !in ListingLines(order)[i]
  {
    forall i | 0 <= i < |order| ensures '\n' !in ListingLines(order)[i] {
      assert ListingLines(order)[i] == ListingLine(i, order[i]);
    }
  }

  const EndedPrefix: string := "\U{1F381} The *"
  const EndedSuffix: string := " Giveaway* has ended!"
  const WinnerPrefix: string := "\U{1F3C6} The winner is *"
  const WinnerSuffix: string := "*!"
  const ClaimPrefix: string := "\U{1F39F} Make a ticket in support " + "with the reason giveaway claim before "
  const ClaimSuffix: string := " or the giveaway will be rerolled."

  lemma EndedTextHasNoNewline()
    ensures '\n' !in EndedPrefix && '\n' !in EndedSuffix
  {
  }

  lemma WinnerTextHasNoNewline()
    ensures '\n' !in WinnerPrefix && '\n' !in WinnerSuffix
  {
  }

  lemma ClaimTextHasNoNewline()
    ensures '\n' !in ClaimPrefix && '\n' !in ClaimSuffix
  {
  }

  /** The lines of the reply sent when the giveaway ends. */
  function AnnouncementLines(prize: string, winner: UserId, claimTime: string): seq<string> {
    [ EndedPrefix + prize + EndedSuffix,
      WinnerPrefix + Mention(winner) + WinnerSuffix,
      ClaimPrefix + claimTime + ClaimSuffix ]
  }

  lemma AnnouncementSplits(prize: string, winner: UserId, claimTime: string)
    requires '\n' !in prize && '\n' !in claimTime
    ensures SplitOn('\n', Join("\n", AnnouncementLines(prize, winner, claimTime)))
      == AnnouncementLines(prize, winner, claimTime)
  {
    var lines := AnnouncementLines(prize, winner, claimTime);
    NumeralHasNo('\n', NatToString(winner));
    EndedTextHasNoNewline();
    WinnerTextHasNoNewline();
    ClaimTextHasNoNewline();
    assert '\n' !in lines[0];
    assert '\n' !in lines[1];
    assert '\n' !in lines[2];
    SplitOnJoin('\n', lines);
  }

  /** The reply of lines 63-68. The f-strings of lines 64 and 65 end in a
      newline, so when neither the prize nor the claim time holds one, the
      reply is exactly the three announcement lines. */
  function WinnerAnnouncement(prize: string, winner: UserId, claimTime: string): (r: string)
    ensures '\n' !in prize && '\n' !in claimTime ==>
      SplitOn('\n', r) == AnnouncementLines(prize, winner, claimTime)
  {
    if '\n' !in prize && '\n' !in claimTime then
      AnnouncementSplits(prize, winner, claimTime);
      Join("\n", AnnouncementLines(prize, winner, claimTime))
    else Join("\n", AnnouncementLines(prize, winner, claimTime))
  }

  /** The announcement has three lines and its second names the winner the
      host chose, whoever entered. */
  lemma AnnouncementNamesWinner(prize: string, winner: UserId, claimTime: string)
    requires '\n' !in prize && '\n' !in claimTime
    ensures |SplitOn('\n', WinnerAnnouncement(prize, winner, claimTime))| == 3
    ensures SplitOn('\n', WinnerAnnouncement(prize, winner, claimTime))[1]
      == WinnerPrefix + Mention(winner) + WinnerSuffix
  {
  }

  /** One giveaway. The Enter, Exit and Participants buttons only hold a
      reference to it, so their callbacks are its methods here. */
  class Giveaway {
    const channel: int
    const prize: string
    const durationSeconds: int
    const endMicros: int
    const winner: UserId
    const host: UserId
    const claimTime: string
    var entries: set<UserId>

    /** The initializer the misspelled `_init_` was meant to be. */
    constructor (config: Config)
      ensures channel == config.channel && prize == config.prize
      ensures durationSeconds == config.durationSeconds && endMicros == config.endMicros
      ensures winner == config.winner && host == config.host && claimTime == config.claimTime
      ensures entries == {}
    {
      channel := config.channel;
      prize := config.prize;
      durationSeconds := config.durationSeconds;
      endMicros := config.endMicros;
      winner := config.winner;
      host := config.host;
      claimTime := config.claimTime;
      entries := {};
    }

    /** The Enter button: a repeat entry is refused and changes nothing. */
    method Join(user: UserId) returns (reply: string)
      modifies this
      ensures entries == Added(old(entries), user)
      ensures reply == if user in old(entries) then AlreadyEnteredText else EnteredText
    {
      if user in entries {
        reply := AlreadyEnteredText;
      } else {
        entries := entries + {user};
        reply := EnteredText;
      }
    }

    /** The Exit button: a non-member is told so and nothing changes. */
    method Exit(user: UserId) returns (reply: string)
      modifies this
      ensures entries == Removed(old(entries), user)
      ensures reply == if user in old(entries) then ExitedText else NotParticipatingText
    {
      if user in entries {
        entries := entries - {user};
        reply := ExitedText;
      } else {
        reply := NotParticipatingText;
      }
    }

    /** The Participants button. */
    method Participants() returns (reply: string)
      ensures exists order :: IsEnumeration(order, entries) && reply == ListingReply(order)
    {
      var order := ListOf(entries);
      reply := ListingReply(order);
    }

    /** The reply posted at the deadline: it names `winner` and does not
        read the entries. */
    method EndAnnouncement() returns (text: string)
      ensures text == WinnerAnnouncement(prize, winner, claimTime)
    {
      text := WinnerAnnouncement(prize, winner, claimTime);
    }
  }
}
