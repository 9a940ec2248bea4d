/** The remaining-time text of the transfer panel
    (`format_eta` in src/ui_bridge/transfer_manager.rs): seconds below a
    minute as `Ns`, below an hour as `m:ss`, and `h:mm:ss` beyond. */
module Eta {
  import opened Wrappers
  import opened Text
  import ShellQuote

  function FormatEta(secs: nat): string {
    if secs < 60 then NatToString(secs) + "s"
    else if secs < 3600 then NatToString(secs / 60) + ":" + Pad2(secs % 60)
    else NatToString(secs / 3600) + ":" + Pad2(secs % 3600 / 60) + ":" + Pad2(secs % 60)
  }

  /** A reader of the three forms; the minute and second fields must be two
      digits below 60. */
  function ParseEta(t: string): Option<nat> {
    if t != [] && t[|t| - 1] == 's' then Decimal(t[..|t| - 1])
    else
      var k := IndexOf(t, ':');
      if k == |t| then None
      else
        Combine(Decimal(t[..k]), ParseTail(t[k + 1..]))
  }

  /** The first field counts hours when two fields follow it, else minutes. */
  function Combine(first: Option<nat>, tail: Option<Tail>): Option<nat> {
    if first.None? || tail.None? then None
    else if tail.value.hours then Some(first.value * 3600 + tail.value.seconds)
    else Some(first.value * 60 + tail.value.seconds)
  }

  /** What follows the first colon: `ss`, or `mm:ss` after an hour count. */
  datatype Tail = Tail(seconds: nat, hours: bool)

  function ParseTail(rest: string): Option<Tail> {
    var k := IndexOf(rest, ':');
    if k == |rest| then
      var s := Sexagesimal(rest);
      if s.None? then None else Some(Tail(s.value, false))
    else
      var m := Sexagesimal(rest[..k]);
      var s := Sexagesimal(rest[k + 1..]);
      if m.None? || s.None? then None else Some(Tail(m.value * 60 + s.value, true))
  }

  function Decimal(s: string): (r: Option<nat>)
    ensures r.Some? ==> AllDigits(s) && r.value == DigitsValue(s)
  {
    if s != [] && AllDigits(s) then Some(DigitsValue(s)) else None
  }

  /** Two digits with a value below 60. */
  function Sexagesimal(s: string): (r: Option<nat>)
    ensures r.Some? ==> r.value < 60
  {
    if |s| == 2 && AllDigits(s) && DigitsValue(s) < 60 then Some(DigitsValue(s)) else None
  }

  /** Reading the text back gives the seconds: the fields are in range and
      add up to the input, so no two durations are shown alike. */
  lemma EtaRoundTrip(secs: nat)
    ensures ParseEta(FormatEta(secs)) == Some(secs)
  {
    if secs < 60 {
      SecondsRoundTrip(secs, FormatEta(secs));
    } else if secs < 3600 {
      MinutesRoundTrip(secs, FormatEta(secs));
    } else {
      HoursRoundTrip(secs, FormatEta(secs));
    }
  }

  lemma SecondsRoundTrip(secs: nat, t: string)
    requires secs < 60 && t == FormatEta(secs)
    ensures ParseEta(t) == Some(secs)
  {
    ReadSeconds(NatToString(secs));
    DigitsValueOfNatToString(secs);
  }

  lemma MinutesRoundTrip(secs: nat, t: string)
    requires 60 <= secs < 3600 && t == FormatEta(secs)
    ensures ParseEta(t) == Some(secs)
  {
    var m, s := secs / 60, secs % 60;
    var a, p := NatToString(m), Pad2(s);
    EtaFields(secs);
    MinutesText(secs, m, s, t);
    HoursFields(m, 0, s, a, Pad2(0), p);
    ReadMinutes(a, p, t);
    MinutesSum(secs, m, s, a, p, ParseEta(t));
  }

  lemma MinutesText(secs: nat, m: nat, s: nat, t: string)
    requires 60 <= secs < 3600 && m == secs / 60 && s == secs % 60 && t == FormatEta(secs)
    ensures t == NatToString(m) + ":" + Pad2(s)
  {
  }

  lemma MinutesSum(secs: nat, m: nat, s: nat, a: string, p: string, x: Option<nat>)
    requires AllDigits(a) && AllDigits(p)
    requires m * 60 + s == secs && DigitsValue(a) == m && DigitsValue(p) == s
    requires x == Some(DigitsValue(a) * 60 + DigitsValue(p))
    ensures x == Some(secs)
  {
  }

  lemma HoursRoundTrip(secs: nat, t: string)
    requires secs >= 3600 && t == FormatEta(secs)
    ensures ParseEta(t) == Some(secs)
  {
    var h, m, s := secs / 3600, secs % 3600 / 60, secs % 60;
    var a, pm, ps := NatToString(h), Pad2(m), Pad2(s);
    EtaFields(secs);
    HoursText(secs, h, m, s, t);
    HoursFields(h, m, s, a, pm, ps);
    HoursTail(a, pm, ps, pm + ":" + ps, t);
    HoursSum(secs, h, m, s, a, pm, ps, ParseEta(t));
  }

  lemma HoursSum(secs: nat, h: nat, m: nat, s: nat, a: string, pm: string, ps: string, x: Option<nat>)
    requires AllDigits(a) && AllDigits(pm) && AllDigits(ps)
    requires h * 3600 + m * 60 + s == secs
    requires DigitsValue(a) == h && DigitsValue(pm) == m && DigitsValue(ps) == s
    requires x == Combine(Some(DigitsValue(a)), Some(Tail(DigitsValue(pm) * 60 + DigitsValue(ps), true)))
    ensures x == Some(secs)
  {
  }

  lemma HoursFields(h: nat, m: nat, s: nat, a: string, pm: string, ps: string)
    requires m < 60 && s < 60 && a == NatToString(h) && pm == Pad2(m) && ps == Pad2(s)
    ensures a != [] && AllDigits(a) && DigitsValue(a) == h
    ensures |pm| == 2 && AllDigits(pm) && DigitsValue(pm) == m
    ensures |ps| == 2 && AllDigits(ps) && DigitsValue(ps) == s
  {
    DigitsValueOfNatToString(h);
  }

  lemma HoursText(secs: nat, h: nat, m: nat, s: nat, t: string)
    requires secs >= 3600 && h == secs / 3600 && m == secs % 3600 / 60 && s == secs % 60
    requires t == FormatEta(secs)
    ensures t == NatToString(h) + ":" + (Pad2(m) + ":" + Pad2(s))
  {
    Regroup(NatToString(h), Pad2(m), Pad2(s));
  }

  lemma ReadSeconds(a: string)
    requires a != [] && AllDigits(a)
    ensures ParseEta(a + "s") == Some(DigitsValue(a))
  {
    var t := a + "s";
    assert t[..|t| - 1] == a;
  }

  lemma ReadMinutes(a: string, p: string, t: string)
    requires a != [] && AllDigits(a) && |p| == 2 && AllDigits(p) && DigitsValue(p) < 60
    requires t == a + ":" + p
    ensures ParseEta(t) == Some(DigitsValue(a) * 60 + DigitsValue(p))
  {
    assert IsDigit(p[1]);
    SecondsTail(p);
    ReadFirstField(a, p);
  }

  lemma SecondsTail(p: string)
    requires |p| == 2 && AllDigits(p) && DigitsValue(p) < 60
    ensures ParseTail(p) == Some(Tail(DigitsValue(p), false))
  {
    NoColonIn(p);
  }

  lemma MinutesSecondsTail(m: string, s: string)
    requires |m| == 2 && AllDigits(m) && DigitsValue(m) < 60
    requires |s| == 2 && AllDigits(s) && DigitsValue(s) < 60
    ensures ParseTail(m + ":" + s) == Some(Tail(DigitsValue(m) * 60 + DigitsValue(s), true))
  {
    var rest := m + ":" + s;
    NoColonIn(m);
    ShellQuote.IndexOfPast(m, ":" + s, ':');
    assert rest == m + (":" + s);
    assert rest[..|m|] == m;
    assert rest[|m| + 1..] == s;
  }

  lemma HoursTail(a: string, m: string, s: string, rest: string, t: string)
    requires a != [] && AllDigits(a)
    requires |m| == 2 && AllDigits(m) && DigitsValue(m) < 60
    requires |s| == 2 && AllDigits(s) && DigitsValue(s) < 60
    requires rest == m + ":" + s && t == a + ":" + rest
    ensures ParseEta(t) == Combine(Some(DigitsValue(a)), Some(Tail(DigitsValue(m) * 60 + DigitsValue(s), true)))
  {
    MinutesSecondsTail(m, s);
    assert rest[|rest| - 1] == s[1] && IsDigit(s[1]);
    ReadFirstField(a, rest);
  }

  lemma Regroup(a: string, m: string, s: string)
    ensures a + ":" + m + ":" + s == a + ":" + (m + ":" + s)
  {
  }

  /** A number, a colon and a tail that does not end in `s`. */
  lemma ReadFirstField(a: string, rest: string)
    requires a != [] && AllDigits(a) && rest != [] && rest[|rest| - 1] != 's'
    ensures ParseEta(a + ":" + rest) == Combine(Some(DigitsValue(a)), ParseTail(rest))
  {
    var t := a + ":" + rest;
    NoColonIn(a);
    ShellQuote.SplitAtFirst(a, ':', rest, t);
    LastOfJoined(a, rest, t);
  }

  lemma LastOfJoined(a: string, rest: string, t: string)
    requires rest != [] && t == a + ":" + rest
    ensures t != [] && t[|t| - 1] == rest[|rest| - 1]
  {
  }

  lemma NoColonIn(s: string)
    requires AllDigits(s)
    ensures ':' !in s && IndexOf(s, ':') == |s|
  {
    forall i | 0 <= i < |s| ensures s[i] != ':' {
      assert IsDigit(s[i]);
    }
  }

  /** The shown fields: minutes and seconds below 60, adding up to the input. */
  lemma EtaFields(secs: nat)
    ensures secs % 3600 / 60 < 60 && secs % 60 < 60
    ensures secs / 3600 * 3600 + secs % 3600 / 60 * 60 + secs % 60 == secs
    ensures secs / 60 * 60 + secs % 60 == secs
  {
    var h := secs / 3600;
    var r := secs % 3600;
    var m := r / 60;
    var s := r % 60;
    assert secs == h * 3600 + r;
    assert r == m * 60 + s;
    assert secs == (h * 60 + m) * 60 + s;
    DivModSixty(secs, h * 60 + m, s);
  }

  lemma DivModSixty(n: nat, q: nat, r: nat)
    requires r < 60 && n == q * 60 + r
    ensures n / 60 == q && n % 60 == r
  {
  }

  /** The boundaries between the three forms. */
  lemma EtaBoundaries(a: nat, b: nat, c: nat)
    requires a == 59 && b == 60 && c == 3600
    ensures FormatEta(a) == "59s" && FormatEta(b) == "1:00" && FormatEta(c) == "1:00:00"
  {
    assert NatToString(59) == "59" by { assert NatToString(5) == "5"; }
    assert Pad2(0) == "00";
  }
}
