/** Strings the two bots read and write: decimal numerals, Python's int() on
    the numerals the commands accept, Discord user mentions, and the
    separator-joined lists the bots reply with. */
module Text {

  datatype Option<T> = None | Some(value: T)

  predicate IsDigit(c: char) {
    '0' <= c <= '9'
  }

  predicate AllDigits(s: string) {
    forall i :: 0 <= i < |s| ==> IsDigit(s[i])
  }

  /** A non-empty run of ASCII digits. */
  predicate IsNumeral(s: string) {
    |s| > 0 && AllDigits(s)
  }

  function DigitChar(d: nat): (c: char)
    requires d < 10
    ensures IsDigit(c) && c as int - '0' as int == d
  {
    ('0' as int + d) as char
  }

  /** The value of a digit string, most significant digit first. */
  function DigitsValue(s: string): nat
    requires AllDigits(s)
  {
    if |s| == 0 then 0
    else DigitsValue(s[..|s| - 1]) * 10 + (s[|s| - 1] as int - '0' as int)
  }

  /** Decimal rendering of a natural number, as Python's str() or an
      f-string prints it. */
  function NatToString(n: nat): (s: string)
    ensures IsNumeral(s)
    ensures DigitsValue(s) == n
  {
    if n < 10 then [DigitChar(n)]
    else
      var t := NatToString(n / 10);
      var s := t + [DigitChar(n % 10)];
      assert s[..|s| - 1] == t;
      s
  }

  function IntToString(i: int): (s: string) {
    if i < 0 then "-" + NatToString(-i) else NatToString(i)
  }

  /** Python's int(s) on a string: an optional sign followed by ASCII digits
      (leading zeros allowed); anything else raises, modelled as None. */
  function ParseInt(s: string): (r: Option<int>)
    ensures r.Some? ==> |s| > 0 && IsDigit(s[|s| - 1])
  {
    if |s| > 0 && (s[0] == '+' || s[0] == '-') then
      if IsNumeral(s[1..]) then
        var v: int := DigitsValue(s[1..]);
        Some(if s[0] == '-' then -v else v)
      else None
    else if IsNumeral(s) then Some(DigitsValue(s))
    else None
  }

  /** Every integer printed in decimal is read back by int(). */
  lemma ParseIntToString(i: int)
    ensures ParseInt(IntToString(i)) == Some(i)
  {
    if i < 0 {
      var t := NatToString(-i);
      assert ("-" + t)[1..] == t;
    } else {
      var t := NatToString(i);
      assert IsDigit(t[0]);
    }
  }

  /** `sep.join(xs)` in Python: it starts with the first element, and every
      character it holds comes from the separator or from an element. */
  function Join(sep: string, xs: seq<string>): (r: string)
    ensures |xs| > 0 ==> xs[0] <= r
    ensures forall c :: c !in sep && (forall i :: 0 <= i < |xs| ==> c !in xs[i]) ==> c !in r
  {
    if |xs| == 0 then ""
    else if |xs| == 1 then xs[0]
    else xs[0] + sep + Join(sep, xs[1..])
  }

  lemma JoinCons(sep: string, x: string, xs: seq<string>)
    requires |xs| > 0
    ensures Join(sep, [x] + xs) == x + sep + Join(sep, xs)
  {
  }

  /** `s.split(c)` in Python for a one-character separator. */
  function SplitOn(c: char, s: string): (parts: seq<string>)
    ensures |parts| > 0
  {
    if |s| == 0 then [""]
    else
      var rest := SplitOn(c, s[1..]);
      if s[0] == c then [""] + rest else [[s[0]] + rest[0]] + rest[1..]
  }

  lemma {:induction false} SplitOnWithout(c: char, a: string)
    requires c !in a
    ensures SplitOn(c, a) == [a]
  {
    if |a| > 0 {
      SplitOnWithout(c, a[1..]);
      assert [a[0]] + a[1..] == a;
    }
  }

  lemma {:induction false} SplitOnAt(c: char, a: string, b: string)
    requires c !in a
    ensures SplitOn(c, a + [c] + b) == [a] + SplitOn(c, b)
  {
    var s := a + [c] + b;
    if |a| == 0 {
      assert s[1..] == b;
    } else {
      assert s[1..] == a[1..] + [c] + b;
      SplitOnAt(c, a[1..], b);
      assert [a[0]] + a[1..] == a;
    }
  }

  /** Splitting a `c`-joined list on `c` gives the list back, as long as no
      element contains `c`. */
  lemma {:induction false} SplitOnJoin(c: char, xs: seq<string>)
    requires |xs| > 0
    requires forall i :: 0 <= i < |xs| ==> c !in xs[i]
    ensures SplitOn(c, Join([c], xs)) == xs
  {
    if |xs| == 1 {
      SplitOnWithout(c, xs[0]);
    } else {
      SplitOnJoin(c, xs[1..]);
      SplitOnAt(c, xs[0], Join([c], xs[1..]));
      assert [xs[0]] + xs[1..] == xs;
    }
  }

  lemma NumeralHasNo(c: char, s: string)
    requires AllDigits(s) && !IsDigit(c)
    ensures c !in s
  {
  }

  /** A Discord user mention, `<@id>`, as discord.py writes `user.mention`
      and as the bots write `f"<@{uid}>"`. */
  function Mention(id: nat): (r: string)
    ensures '\n' !in r
  {
    NumeralHasNo('\n', NatToString(id));
    "<@" + NatToString(id) + ">"
  }

  function Mentions(ids: seq<nat>): (ms: seq<string>)
    ensures |ms| == |ids|
    ensures forall i :: 0 <= i < |ids| ==> ms[i] == Mention(ids[i])
  {
    if |ids| == 0 then [] else [Mention(ids[0])] + Mentions(ids[1..])
  }

  lemma MentionsHaveNoNewline(ids: seq<nat>)
    ensures forall i :: 0 <= i < |Mentions(ids)| ==> '\n' !in Mentions(ids)[i]
  {
  }

  /** `", ".join(f"<@{uid}>" for uid in ids)`: one line, empty exactly when
      there are no ids, and starting with the first id's mention. */
  function MentionList(ids: seq<nat>): (r: string)
    ensures '\n' !in r
    ensures r == "" <==> |ids| == 0
    ensures |ids| > 0 ==> Mention(ids[0]) <= r
  {
    MentionsHaveNoNewline(ids);
    Join(", ", Mentions(ids))
  }

  /** The reply both bots give when nobody has entered. */
  const NoParticipantsText: string := "No participants yet."

  /** Length of the longest run of digits at the start of `s`. */
  function DigitRun(s: string): (n: nat)
    ensures n <= |s| && AllDigits(s[..n])
    ensures n < |s| ==> !IsDigit(s[n])
  {
    if |s| > 0 && IsDigit(s[0]) then
      var n := 1 + DigitRun(s[1..]);
      assert s[..n] == [s[0]] + s[1..][..n - 1];
      n
    else 0
  }

  lemma {:induction false} DigitRunOf(t: string, u: string)
    requires AllDigits(t)
    requires |u| > 0 && !IsDigit(u[0])
    ensures DigitRun(t + u) == |t|
  {
    if |t| > 0 {
      assert (t + u)[1..] == t[1..] + u;
      DigitRunOf(t[1..], u);
    } else {
      assert t + u == u;
    }
  }

  /** Reads one mention at the start of `s`: its id and what follows it. */
  function ReadMention(s: string): (r: Option<(nat, string)>)
    ensures r.Some? ==> |r.value.1| < |s|
  {
    if |s| >= 2 && s[0] == '<' && s[1] == '@' then
      var n := DigitRun(s[2..]);
      if n > 0 && 2 + n < |s| && s[2 + n] == '>' then
        assert s[2..][..n] == s[2..2 + n];
        Some((DigitsValue(s[2..2 + n]), s[3 + n..]))
      else None
    else None
  }

  /** Reads a `", "`-separated list of mentions that is the whole of `s`. */
  function ReadMentionList(s: string): Option<seq<nat>>
    decreases |s|
  {
    match ReadMention(s)
    case None => None
    case Some((id, rest)) =>
      if rest == "" then Some([id])
      else if |rest| >= 2 && rest[0] == ',' && rest[1] == ' ' then
        match ReadMentionList(rest[2..])
        case None => None
        case Some(ids) => Some([id] + ids)
      else None
  }

  lemma ReadMentionOf(id: nat, rest: string)
    ensures ReadMention(Mention(id) + rest) == Some((id, rest))
  {
    var t := NatToString(id);
    var s := Mention(id) + rest;
    assert s == "<@" + t + (">" + rest);
    assert s[2..] == t + (">" + rest);
    DigitRunOf(t, ">" + rest);
    assert s[2..2 + |t|] == t;
    assert s[2 + |t|] == '>';
    assert s[3 + |t|..] == rest;
  }

  lemma MentionListCons(ids: seq<nat>)
    requires |ids| > 1
    ensures MentionList(ids) == Mention(ids[0]) + (", " + MentionList(ids[1..]))
  {
    assert Mentions(ids)[1..] == Mentions(ids[1..]);
  }

  /** Two newline-free strings joined by a newline split back into the two. */
  lemma SplitTwoLines(a: string, b: string)
    requires '\n' !in a && '\n' !in b
    ensures SplitOn('\n', a + "\n" + b) == [a, b]
  {
    SplitOnAt('\n', a, b);
    SplitOnWithout('\n', b);
  }

  /** A header line followed by newline-joined lines splits back into the
      header and those lines. */
  lemma SplitHeaderLines(header: string, lines: seq<string>)
    requires '\n' !in header && |lines| > 0
    requires forall i :: 0 <= i < |lines| ==> '\n' !in lines[i]
    ensures SplitOn('\n', header + "\n" + Join("\n", lines)) == [header] + lines
  {
    var all := [header] + lines;
    JoinCons("\n", header, lines);
    forall i | 0 <= i < |all| ensures '\n' !in all[i] {
      if i > 0 {
        assert all[i] == lines[i - 1];
      }
    }
    SplitOnJoin('\n', all);
  }

  /** The mention list determines the ids it was made from, in order. */
  lemma {:induction false} ReadMentionListOf(ids: seq<nat>)
    requires |ids| > 0
    ensures ReadMentionList(MentionList(ids)) == Some(ids)
  {
    if |ids| == 1 {
      assert MentionList(ids) == Mention(ids[0]) + "";
      ReadMentionOf(ids[0], "");
      assert ids == [ids[0]];
    } else {
      var tail := MentionList(ids[1..]);
      MentionListCons(ids);
      ReadMentionOf(ids[0], ", " + tail);
      assert (", " + tail)[2..] == tail;
      ReadMentionListOf(ids[1..]);
      assert [ids[0]] + ids[1..] == ids;
    }
  }
}
