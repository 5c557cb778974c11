/** pkg/config/config.go: from the text of global_bps_config to the two configurations. `parseConfig`
    searches for the key, then `=` or nothing or white space, then digits; the leftmost match counts and
    the alternatives are tried in that order. */
module ConfigText {

  import opened Words
  import opened Options
  import opened GlobalRate
  import opened GlobalConfigs

  // ---- parseConfig ----

  predicate IsDigit(c: char) { '0' <= c <= '9' }

  predicate IsSpace(c: char) { c == '\t' || c == '\n' || c == '\U{0C}' || c == '\r' || c == ' ' }

  predicate DigitFirst(s: string) { s != "" && IsDigit(s[0]) }

  /** The longest run of digits at the front. */
  function Digits(s: string): string { if DigitFirst(s) then [s[0]] + Digits(s[1..]) else "" }

  function SkipSpaces(s: string): string { if s != "" && IsSpace(s[0]) then SkipSpaces(s[1..]) else s }

  /** A match of the whole pattern at the front of the text: the digits it captures. */
  function MatchHere(key: string, s: string): Option<string> {
    if !(key <= s) then None
    else
      var t := s[|key|..];
      if t != "" && t[0] == '=' && DigitFirst(t[1..]) then Some(Digits(t[1..]))
      else if DigitFirst(t) then Some(Digits(t))
      else
        var u := SkipSpaces(t);
        if u != t && DigitFirst(u) then Some(Digits(u)) else None
  }

  /** The leftmost match. */
  function Search(key: string, s: string): Option<string> {
    if MatchHere(key, s).Some? then MatchHere(key, s)
    else if s == "" then None
    else Search(key, s[1..])
  }

  function NumberOf(ds: string): nat {
    if ds == "" then 0
    else NumberOf(ds[..|ds| - 1]) * 10 + (if IsDigit(ds[|ds| - 1]) then (ds[|ds| - 1] - '0') as int else 0)
  }

  /** strconv.ParseUint on digits: out of range gives the largest value, and the error is dropped. */
  function ParseUint(ds: string): u64 { Min(NumberOf(ds), MAX64) }

  function ParseConfig(key: string, content: string): u64 {
    match Search(key, content)
    case None => 0
    case Some(ds) => ParseUint(ds)
  }

  // ---- the fourteen keys ----

  datatype Subject = Hw | Online | L1 | L2

  datatype Setting = Setting(subject: Subject, tx: bool, max: bool)

  /** Everything but a minimum for the hardware. */
  type ConfigKey = k: Setting | k.subject == Hw ==> k.max witness Setting(Hw, true, true)

  function Prefix(s: Subject): string {
    match s
    case Hw => "hw"
    case Online => "online"
    case L1 => "offline_l1"
    case L2 => "offline_l2"
  }

  function Suffix(tx: bool, max: bool): (r: string)
    ensures |r| == 11
  {
    if tx then (if max then "_tx_bps_max" else "_tx_bps_min") else (if max then "_rx_bps_max" else "_rx_bps_min")
  }

  function Text(k: Setting): string { Prefix(k.subject) + Suffix(k.tx, k.max) }

  /** What GetGlobalConfig asks for, in one direction. */
  function ReadConfig(content: string, tx: bool): Config {
    Config(
      ParseConfig(Text(Setting(Hw, tx, true)), content), 0,
      ParseConfig(Text(Setting(Online, tx, true)), content), ParseConfig(Text(Setting(Online, tx, false)), content),
      ParseConfig(Text(Setting(L1, tx, true)), content), ParseConfig(Text(Setting(L1, tx, false)), content),
      ParseConfig(Text(Setting(L2, tx, true)), content), ParseConfig(Text(Setting(L2, tx, false)), content))
  }

  lemma TextsOfTx()
    ensures Text(Setting(Hw, true, true)) == "hw_tx_bps_max"
    ensures Text(Setting(Online, true, true)) == "online_tx_bps_max"
    ensures Text(Setting(Online, true, false)) == "online_tx_bps_min"
    ensures Text(Setting(L1, true, true)) == "offline_l1_tx_bps_max"
    ensures Text(Setting(L1, true, false)) == "offline_l1_tx_bps_min"
    ensures Text(Setting(L2, true, true)) == "offline_l2_tx_bps_max"
    ensures Text(Setting(L2, true, false)) == "offline_l2_tx_bps_min"
  {
  }

  lemma TextsOfRx()
    ensures Text(Setting(Hw, false, true)) == "hw_rx_bps_max"
    ensures Text(Setting(Online, false, true)) == "online_rx_bps_max"
    ensures Text(Setting(Online, false, false)) == "online_rx_bps_min"
    ensures Text(Setting(L1, false, true)) == "offline_l1_rx_bps_max"
    ensures Text(Setting(L1, false, false)) == "offline_l1_rx_bps_min"
    ensures Text(Setting(L2, false, true)) == "offline_l2_rx_bps_max"
    ensures Text(Setting(L2, false, false)) == "offline_l2_rx_bps_min"
  {
  }

  /** GetGlobalConfig once the file is read. */
  method GetGlobalConfig(content: string) returns (ingress: GlobalConfig, egress: GlobalConfig)
    ensures fresh(ingress) && fresh(egress) && ingress != egress
    ensures ingress.State() == ReadConfig(content, false) && egress.State() == ReadConfig(content, true)
  {
    ingress := new GlobalConfig(Config(0, 0, 0, 0, 0, 0, 0, 0));
    egress := new GlobalConfig(Config(0, 0, 0, 0, 0, 0, 0, 0));
    TextsOfTx();
    TextsOfRx();
    egress.hwGuaranteed := ParseConfig("hw_tx_bps_max", content);
    egress.l0MinBps := ParseConfig("online_tx_bps_min", content);
    egress.l0MaxBps := ParseConfig("online_tx_bps_max", content);
    egress.l1MinBps := ParseConfig("offline_l1_tx_bps_min", content);
    egress.l1MaxBps := ParseConfig("offline_l1_tx_bps_max", content);
    egress.l2MinBps := ParseConfig("offline_l2_tx_bps_min", content);
    egress.l2MaxBps := ParseConfig("offline_l2_tx_bps_max", content);
    ingress.hwGuaranteed := ParseConfig("hw_rx_bps_max", content);
    ingress.l0MinBps := ParseConfig("online_rx_bps_min", content);
    ingress.l0MaxBps := ParseConfig("online_rx_bps_max", content);
    ingress.l1MinBps := ParseConfig("offline_l1_rx_bps_min", content);
    ingress.l1MaxBps := ParseConfig("offline_l1_rx_bps_max", content);
    ingress.l2MinBps := ParseConfig("offline_l2_rx_bps_min", content);
    ingress.l2MaxBps := ParseConfig("offline_l2_rx_bps_max", content);
  }

  // ---- writing a configuration ----

  predicate IsBlank(c: char) { c in [' ', '\t', '\n', '\r', '\U{0C}'] }

  /** What may stand between a key and its number: an equals sign, blanks of any kind, or nothing. */
  type Separator = s: string | s == "=" || forall i :: 0 <= i < |s| ==> IsBlank(s[i]) witness ""

  /** A line about a key, with a number or without one. */
  datatype Line = Line(key: ConfigKey, sep: Separator, value: Option<nat>)

  function Decimal(n: nat): string {
    if n < 10 then [('0' as int + n) as char] else Decimal(n / 10) + [('0' as int + n % 10) as char]
  }

  function Number(v: Option<nat>): string { if v.Some? then Decimal(v.value) else "" }

  function RenderLine(l: Line): string { Text(l.key) + l.sep + Number(l.value) + "\n" }

  function Render(ls: seq<Line>): string { if ls == [] then "" else RenderLine(ls[0]) + Render(ls[1..]) }

  /** The value a file gives a key: that of the first line with a number for it, or nothing. */
  function ValueIn(ls: seq<Line>, k: ConfigKey): nat {
    if ls == [] then 0
    else if ls[0].key == k && ls[0].value.Some? then ls[0].value.value
    else ValueIn(ls[1..], k)
  }

  // ---- decimal numbers ----

  lemma {:induction false} DecimalDigits(n: nat)
    ensures Decimal(n) != "" && forall i :: 0 <= i < |Decimal(n)| ==> IsDigit(Decimal(n)[i])
    ensures NumberOf(Decimal(n)) == n
  {
    if n >= 10 {
      DecimalDigits(n / 10);
      assert Decimal(n)[..|Decimal(n)| - 1] == Decimal(n / 10);
    } else {
      assert Decimal(n)[..0] == "";
    }
  }

  lemma {:induction false} DigitsStop(ds: string, rest: string)
    requires forall i :: 0 <= i < |ds| ==> IsDigit(ds[i])
    requires !DigitFirst(rest)
    ensures Digits(ds + rest) == ds
  {
    if ds == "" {
      assert ds + rest == rest;
    } else {
      assert (ds + rest)[1..] == ds[1..] + rest;
      DigitsStop(ds[1..], rest);
    }
  }

  // ---- no key occurs inside another ----

  /** A character that no key contains, or a digit. */
  predicate Foreign(c: char) { c == '=' || IsBlank(c) || IsDigit(c) }

  /** The last character of a prefix tells the prefix's length, its letters avoid `b`, and only its last character
      may be a digit. */
  lemma PrefixShape(s: Subject)
    ensures var p := Prefix(s);
      && |p| == (match s case Hw => 2 case Online => 6 case L1 => 10 case L2 => 10)
      && p[|p| - 1] == (match s case Hw => 'w' case Online => 'e' case L1 => '1' case L2 => '2')
      && (p[0] == 'h' || p[0] == 'o')
      && forall i :: 0 <= i < |p| ==> p[i] != 'b' && (Foreign(p[i]) ==> IsDigit(p[i]) && i == |p| - 1)
  {
  }

  lemma SuffixShape(tx: bool, max: bool)
    ensures var r := Suffix(tx, max);
      && r[0] == '_' && r[1] == (if tx then 't' else 'r') && r[4] == 'b' && r[9] == (if max then 'a' else 'i')
      && forall i :: 0 <= i < 11 ==> (r[i] == 'b' <==> i == 4) && !Foreign(r[i])
  {
  }

  /** A key carries its one `b` seven characters before its end, no equals sign and no blank, and an underscore after
      its one digit. */
  lemma TextShape(k: Setting)
    ensures var t, n := Text(k), |Prefix(k.subject)|;
      && |t| == n + 11 && n >= 2
      && (t[0] == 'h' || t[0] == 'o')
      && t[n - 1] == Prefix(k.subject)[n - 1]
      && t[n] == '_' && t[n + 1] == (if k.tx then 't' else 'r') && t[n + 9] == (if k.max then 'a' else 'i')
      && t[n + 4] == 'b'
      && forall i :: 0 <= i < |t| ==>
           (t[i] == 'b' <==> i == n + 4) && (Foreign(t[i]) ==> IsDigit(t[i]) && i == n - 1)
  {
    PrefixShape(k.subject);
    SuffixShape(k.tx, k.max);
    var t, p := Text(k), Prefix(k.subject);
    forall i | 0 <= i < |t| ensures t[i] == if i < |p| then p[i] else Suffix(k.tx, k.max)[i - |p|] {}
  }

  predicate OccursAt(t: string, s: string, i: nat) { i + |t| <= |s| && s[i..i + |t|] == t }

  lemma KeyInsideKey(a: Setting, b: Setting, i: nat)
    requires OccursAt(Text(a), Text(b), i)
    ensures a == b && i == 0
  {
    var t, u := Text(a), Text(b);
    var n, m := |Prefix(a.subject)|, |Prefix(b.subject)|;
    TextShape(a);
    TextShape(b);
    PrefixShape(a.subject);
    PrefixShape(b.subject);
    assert forall j :: 0 <= j < |t| ==> t[j] == u[i..i + |t|][j] == u[i + j];
    assert u[i + (n + 4)] == 'b';
    assert i + n == m;
    assert t[n - 1] == u[m - 1];
    assert t[n + 1] == u[m + 1] && t[n + 9] == u[m + 9];
  }

  // ---- the search ----

  /** Text in which the key starts nowhere is passed over. */
  lemma {:induction false} SearchSkips(key: string, a: string, b: string)
    requires forall i :: 0 <= i < |a| ==> !(key <= (a + b)[i..])
    ensures Search(key, a + b) == Search(key, b)
  {
    if a == "" {
      assert a + b == b;
    } else {
      assert (a + b)[0..] == a + b;
      assert (a + b)[1..] == a[1..] + b;
      forall i | 0 <= i < |a[1..]| ensures !(key <= (a[1..] + b)[i..]) {
        assert (a[1..] + b)[i..] == (a + b)[i + 1..];
      }
      SearchSkips(key, a[1..], b);
    }
  }

  lemma StartsInside(t: string, s: string, u: string, i: nat)
    requires |u| <= |s| && s[..|u|] == u && i + |t| <= |u| && t <= s[i..]
    ensures OccursAt(t, u, i)
  {
    assert u[i..i + |t|] == s[i..][..|t|];
  }

  lemma SameStart(t: string, s: string, i: nat)
    requires i <= |s| && t <= s[i..] && t != ""
    ensures i < |s| && t[0] == s[i]
  {
    assert t[0] == s[i..][0];
  }

  lemma NumberDigits(v: Option<nat>)
    ensures forall i :: 0 <= i < |Number(v)| ==> IsDigit(Number(v)[i])
    ensures v.Some? ==> Number(v) != "" && NumberOf(Number(v)) == v.value
  {
    if v.Some? { DecimalDigits(v.value); }
  }

  /** After its key a line holds nothing a key contains but digits. */
  lemma LineParts(l: Line, rest: string)
    ensures var u, s := Text(l.key), RenderLine(l) + rest;
      && |u| < |RenderLine(l)| && s[|RenderLine(l)| - 1] == '\n'
      && s[..|u|] == u
      && s[|u|..] == l.sep + Number(l.value) + "\n" + rest
      && forall i :: |u| <= i < |RenderLine(l)| ==> Foreign(s[i])
  {
    var u, s, tail := Text(l.key), RenderLine(l) + rest, l.sep + Number(l.value) + "\n";
    NumberDigits(l.value);
    assert RenderLine(l) == u + tail && s == u + (tail + rest);
    forall i | 0 <= i < |tail| ensures Foreign(tail[i]) {
      if i < |l.sep| {
        assert tail[i] == l.sep[i];
      } else if i < |tail| - 1 {
        assert tail[i] == Number(l.value)[i - |l.sep|];
      }
    }
    forall i | |u| <= i < |RenderLine(l)| ensures Foreign(s[i]) {
      assert s[i] == tail[i - |u|];
    }
  }

  /** A text whose one foreign character is a digit with an underscore behind it, and whose first is none, cannot
      reach into a stretch of foreign characters that ends in a line end. */
  lemma EndsBefore(t: string, s: string, start: nat, end: nat, i: nat, digit: nat)
    requires 0 < digit < |t| - 1 && t[digit + 1] == '_'
    requires forall j :: 0 <= j < |t| && Foreign(t[j]) ==> IsDigit(t[j]) && j == digit
    requires i < end && start < end <= |s| && s[end - 1] == '\n' && t <= s[i..]
    requires forall j :: start <= j < end ==> Foreign(s[j])
    ensures i + |t| <= start
  {
    assert forall j :: 0 <= j < |t| ==> t[j] == s[i..][j] == s[i + j];
    assert t[0] == s[i];
    assert i < start;
    assert Foreign(s[start]) && (start + 1 < end ==> Foreign(s[start + 1]));
    assert forall p :: i <= p < i + |t| ==> s[p] == t[p - i];
  }

  /** A key starts in a line only as that line's own key, whatever follows the line. */
  lemma StartsOnlyAsItself(k: ConfigKey, l: Line, rest: string, i: nat)
    requires i < |RenderLine(l)| && Text(k) <= (RenderLine(l) + rest)[i..]
    ensures k == l.key && i == 0
  {
    var t, u, s := Text(k), Text(l.key), RenderLine(l) + rest;
    TextShape(k);
    LineParts(l, rest);
    EndsBefore(t, s, |u|, |RenderLine(l)|, i, |Prefix(k.subject)| - 1);
    StartsInside(t, s, u, i);
    KeyInsideKey(k, l.key, i);
  }

  lemma {:induction false} SpacesStop(sep: string, rest: string)
    requires (forall i :: 0 <= i < |sep| ==> IsBlank(sep[i])) && (rest != "" ==> !IsBlank(rest[0]))
    ensures SkipSpaces(sep + rest) == rest
  {
    if sep == "" {
      assert sep + rest == rest;
    } else {
      assert (sep + rest)[1..] == sep[1..] + rest;
      SpacesStop(sep[1..], rest);
    }
  }

  /** Text that starts with no digit and no blank, as the next line does. */
  predicate StartsLine(rest: string) { rest != "" ==> !Foreign(rest[0]) }

  /** A line matches its own key with its number, or not at all. */
  lemma OwnLine(l: Line, rest: string)
    requires StartsLine(rest)
    ensures MatchHere(Text(l.key), RenderLine(l) + rest)
         == if l.value.Some? then Some(Decimal(l.value.value)) else None
  {
    var u, s := Text(l.key), RenderLine(l) + rest;
    NumberDigits(l.value);
    LineParts(l, rest);
    assert u <= s by { assert u == s[..|u|]; }
    if l.sep == "=" {
      AfterEquals(Number(l.value), rest);
    } else {
      AfterBlanks(l.sep, Number(l.value), rest);
    }
  }

  lemma AfterEquals(d: string, rest: string)
    requires forall i :: 0 <= i < |d| ==> IsDigit(d[i])
    ensures var t := "=" + d + "\n" + rest;
      && t[0] == '=' && !DigitFirst(t) && SkipSpaces(t) == t
      && (if d == "" then !DigitFirst(t[1..]) else DigitFirst(t[1..]) && Digits(t[1..]) == d)
  {
    var t := "=" + d + "\n" + rest;
    assert t[1..] == d + ("\n" + rest);
    DigitsStop(d, "\n" + rest);
    if d != "" { assert t[1] == d[0]; }
  }

  lemma AfterBlanks(sep: string, d: string, rest: string)
    requires (forall i :: 0 <= i < |sep| ==> IsBlank(sep[i])) && (forall i :: 0 <= i < |d| ==> IsDigit(d[i]))
    requires StartsLine(rest)
    ensures var t := sep + d + "\n" + rest;
      && t[0] != '='
      && if d == "" then !DigitFirst(t) && !DigitFirst(SkipSpaces(t))
         else if sep == "" then DigitFirst(t) && Digits(t) == d
         else !DigitFirst(t) && SkipSpaces(t) != t && DigitFirst(SkipSpaces(t)) && Digits(SkipSpaces(t)) == d
  {
    var t, tail := sep + d + "\n" + rest, d + ("\n" + rest);
    DigitsStop(d, "\n" + rest);
    if d == "" {
      assert t == (sep + "\n") + rest;
      SpacesStop(sep + "\n", rest);
      assert sep != "" ==> t[0] == sep[0];
    } else {
      assert t == sep + tail && tail[0] == d[0];
      SpacesStop(sep, tail);
      assert sep != "" ==> t[0] == sep[0];
    }
  }

  /** An equals sign takes no blank after it. */
  lemma EqualsTakesNoBlank(key: string, blank: char, rest: string)
    requires IsBlank(blank)
    ensures MatchHere(key, key + ("=" + ([blank] + rest))) == None
  {
    var t := "=" + ([blank] + rest);
    assert (key + t)[|key|..] == t && t[1..] == [blank] + rest;
  }

  /** No other character may stand between a key and its number. */
  lemma OtherCharacterStops(key: string, c: char, rest: string)
    requires !Foreign(c)
    ensures MatchHere(key, key + ([c] + rest)) == None
  {
    var t := [c] + rest;
    assert (key + t)[|key|..] == t;
  }

  lemma {:induction false} NextLine(ls: seq<Line>)
    ensures StartsLine(Render(ls))
  {
    if ls != [] {
      TextShape(ls[0].key);
      assert Render(ls)[0] == Text(ls[0].key)[0];
    }
  }

  /** Whatever lines are written, in whatever order and however spaced, each key reads back as the first number
      written for it, cut off at 2^64 - 1, and a key without one reads as 0. */
  lemma {:induction false} ParseReadsBack(ls: seq<Line>, k: ConfigKey)
    ensures ParseConfig(Text(k), Render(ls)) == Min(ValueIn(ls, k), MAX64)
  {
    if ls == [] {
      TextShape(k);
    } else {
      var line, rest := RenderLine(ls[0]), Render(ls[1..]);
      NextLine(ls[1..]);
      OwnLine(ls[0], rest);
      if ls[0].key == k && ls[0].value.Some? {
        DecimalDigits(ls[0].value.value);
      } else {
        if ls[0].key == k { SkipOwn(ls[0], rest); } else { SkipOther(k, ls[0], rest); }
        ParseReadsBack(ls[1..], k);
      }
    }
  }

  lemma SkipOther(k: ConfigKey, l: Line, rest: string)
    requires l.key != k
    ensures Search(Text(k), RenderLine(l) + rest) == Search(Text(k), rest)
  {
    var line := RenderLine(l);
    forall i | 0 <= i < |line| ensures !(Text(k) <= (line + rest)[i..]) {
      if Text(k) <= (line + rest)[i..] { StartsOnlyAsItself(k, l, rest, i); }
    }
    SearchSkips(Text(k), line, rest);
  }

  lemma SkipOwn(l: Line, rest: string)
    requires l.value.None? && StartsLine(rest)
    ensures Search(Text(l.key), RenderLine(l) + rest) == Search(Text(l.key), rest)
  {
    var t, line := Text(l.key), RenderLine(l);
    OwnLine(l, rest);
    LineParts(l, rest);
    assert (line + rest)[1..] == line[1..] + rest;
    forall i | 0 <= i < |line[1..]| ensures !(t <= (line[1..] + rest)[i..]) {
      assert (line[1..] + rest)[i..] == (line + rest)[i + 1..];
      if t <= (line + rest)[i + 1..] { StartsOnlyAsItself(l.key, l, rest, i + 1); }
    }
    SearchSkips(t, line[1..], rest);
  }

  function Cut(v: nat): u64 { Min(v, MAX64) }

  /** The same for the whole configuration of a direction. */
  lemma ConfigReadsBack(ls: seq<Line>, tx: bool)
    ensures ReadConfig(Render(ls), tx) == Config(
      Cut(ValueIn(ls, Setting(Hw, tx, true))), 0,
      Cut(ValueIn(ls, Setting(Online, tx, true))), Cut(ValueIn(ls, Setting(Online, tx, false))),
      Cut(ValueIn(ls, Setting(L1, tx, true))), Cut(ValueIn(ls, Setting(L1, tx, false))),
      Cut(ValueIn(ls, Setting(L2, tx, true))), Cut(ValueIn(ls, Setting(L2, tx, false))))
  {
    forall k: ConfigKey { ParseReadsBack(ls, k); }
  }

  // ---- from the text to the classes ----

  /** A written hardware limit, with floors and ceilings in order and room for both ceilings. */
  ghost predicate Reasonable(ls: seq<Line>, tx: bool) {
    var hw := ValueIn(ls, Setting(Hw, tx, true));
    && 0 < hw < 0x8000_0000_0000_0000
    && ValueIn(ls, Setting(L1, tx, false)) <= ValueIn(ls, Setting(L1, tx, true))
    && ValueIn(ls, Setting(L2, tx, false)) <= ValueIn(ls, Setting(L2, tx, true))
    && ValueIn(ls, Setting(L1, tx, true)) + ValueIn(ls, Setting(L2, tx, true)) <= hw
  }

  /** A class's limits as the text gives them; L0's are the hardware limit, and what the other two minima leave. */
  function TextCeiling(ls: seq<Line>, tx: bool, c: ClassId): nat {
    ValueIn(ls, Setting(if c == 0 then Hw else if c == 1 then L1 else L2, tx, true))
  }

  function TextFloor(ls: seq<Line>, tx: bool, c: ClassId): int {
    var l1, l2 := ValueIn(ls, Setting(L1, tx, false)), ValueIn(ls, Setting(L2, tx, false));
    if c == 0 then ValueIn(ls, Setting(Hw, tx, true)) - l1 - l2 else if c == 1 then l1 else l2
  }

  lemma ClassesAsConfigured(c: Config, id: ClassId)
    requires c.hwBurstable == 0 && 0 < c.hwGuaranteed < 0x8000_0000_0000_0000
    requires c.l1Min <= c.l1Max && c.l2Min <= c.l2Max && c.l1Max + c.l2Max <= c.hwGuaranteed
    ensures var w := Written(Defaulted(c));
      && Accepted(Defaulted(c))
      && CeilingOf(w, id) == (if id == 0 then c.hwGuaranteed else if id == 1 then c.l1Max else c.l2Max)
      && FloorOf(w, id)
         == if id == 0 then c.hwGuaranteed - c.l1Min - c.l2Min else if id == 1 then c.l1Min else c.l2Min
  {
    AcceptedExactly(c);
    WrittenKeepsClasses(c);
  }

  /** A reasonable text is accepted, and each class's floor and ceiling in the map are the text's. */
  lemma TextReachesClasses(ls: seq<Line>, tx: bool, c: ClassId)
    requires Reasonable(ls, tx)
    ensures var d := Defaulted(ReadConfig(Render(ls), tx));
      && Accepted(d)
      && CeilingOf(Written(d), c) == TextCeiling(ls, tx, c) && FloorOf(Written(d), c) == TextFloor(ls, tx, c)
  {
    ConfigReadsBack(ls, tx);
    ClassesAsConfigured(ReadConfig(Render(ls), tx), c);
  }

  /** `syncGlobalConfig` once the file is read. */
  method SyncGlobalConfig(content: string, limits: GlobalCfgMap) returns (ok: bool)
    modifies limits
    ensures var i, e := Defaulted(ReadConfig(content, false)), Defaulted(ReadConfig(content, true));
      && ok == (Accepted(i) && Accepted(e))
      && limits.ingress == (if ok then Written(i) else old(limits.ingress))
      && limits.egress == (if ok then Written(e) else old(limits.egress))
  {
    var ingress, egress := GetGlobalConfig(content);
    ok := limits.WriteGlobalConfig(ingress, egress);
  }
}
