/** Text forms the stores use: decimal numbers, flags, trimmed and lower-cased words. */
module TextForms {
  import opened Outcomes

  function DigitChar(d: nat): char
    requires d < 10
  {
    '0' + d as char
  }

  predicate IsDigit(c: char) { '0' <= c <= '9' }

  function DigitValue(c: char): nat
    requires IsDigit(c)
  {
    c as int - '0' as int
  }

  function ToText(n: nat): string {
    if n < 10 then [DigitChar(n)] else ToText(n / 10) + [DigitChar(n % 10)]
  }

  predicate AllDigits(s: string) {
    forall i :: 0 <= i < |s| ==> IsDigit(s[i])
  }

  function DecimalValue(s: string): nat
    requires AllDigits(s)
    decreases |s|
  {
    if s == "" then 0 else DecimalValue(s[..|s| - 1]) * 10 + DigitValue(s[|s| - 1])
  }

  /** An unsigned integer no larger than `max`: decimal digits after an optional plus sign. */
  function ParseUnsigned(s: string, max: nat): Option<nat> {
    var t := if s != "" && s[0] == '+' then s[1..] else s;
    if t == "" || !AllDigits(t) || DecimalValue(t) > max then None else Some(DecimalValue(t))
  }

  lemma {:induction false} TextValue(n: nat)
    ensures ToText(n) != "" && AllDigits(ToText(n)) && DecimalValue(ToText(n)) == n
  {
    if n >= 10 {
      TextValue(n / 10);
      var s := ToText(n);
      assert s[..|s| - 1] == ToText(n / 10) && s[|s| - 1] == DigitChar(n % 10);
    } else {
      assert ToText(n)[..0] == "";
    }
  }

  /** A number written as text parses back to itself. */
  lemma NumberRoundTrip(n: nat, max: nat)
    requires n <= max
    ensures ParseUnsigned(ToText(n), max) == Some(n)
  {
    TextValue(n);
    assert IsDigit(ToText(n)[0]);
  }

  function FlagText(b: bool): string { if b then "true" else "false" }

  predicate IsSpace(c: char) {
    || '\t' <= c <= '\r' || c == ' ' || c == '\U{85}' || c == '\U{A0}' || c == '\U{1680}'
    || '\U{2000}' <= c <= '\U{200A}' || c == '\U{2028}' || c == '\U{2029}' || c == '\U{202F}'
    || c == '\U{205F}' || c == '\U{3000}'
  }

  function TrimStart(s: string): string {
    if s != "" && IsSpace(s[0]) then TrimStart(s[1..]) else s
  }

  function TrimEnd(s: string): string
    decreases |s|
  {
    if s != "" && IsSpace(s[|s| - 1]) then TrimEnd(s[..|s| - 1]) else s
  }

  function Trim(s: string): string { TrimEnd(TrimStart(s)) }

  /** Some character is not white space. */
  predicate HasText(s: string) {
    exists i :: 0 <= i < |s| && !IsSpace(s[i])
  }

  lemma {:induction false} TrimStartKeepsText(s: string)
    ensures HasText(TrimStart(s)) <==> HasText(s)
    ensures TrimStart(s) == "" <==> !HasText(s)
  {
    if s != "" && IsSpace(s[0]) {
      TrimStartKeepsText(s[1..]);
      assert HasText(s) <==> HasText(s[1..]) by {
        if HasText(s) {
          var i :| 0 <= i < |s| && !IsSpace(s[i]);
          assert s[1..][i - 1] == s[i];
        }
      }
    }
  }

  lemma {:induction false} TrimEndKeepsText(s: string)
    ensures TrimEnd(s) == "" <==> !HasText(s)
    decreases |s|
  {
    if s != "" && IsSpace(s[|s| - 1]) {
      var n := |s| - 1;
      TrimEndKeepsText(s[..n]);
      assert HasText(s) <==> HasText(s[..n]) by {
        if HasText(s) {
          var i :| 0 <= i < |s| && !IsSpace(s[i]);
          assert s[..n][i] == s[i];
        }
      }
    }
  }

  /** Trimming leaves nothing exactly of a text without anything but white space. */
  lemma TrimMeaning(s: string)
    ensures Trim(s) == "" <==> !HasText(s)
  {
    TrimStartKeepsText(s);
    TrimEndKeepsText(TrimStart(s));
  }

  /** `[a, b)` is the text without the white space around it. */
  predicate Inner(s: string, a: nat, b: nat) {
    && a <= b <= |s|
    && (forall i :: 0 <= i < a ==> IsSpace(s[i])) && (forall i :: b <= i < |s| ==> IsSpace(s[i]))
    && (a < b ==> !IsSpace(s[a]) && !IsSpace(s[b - 1]))
  }

  lemma {:induction false} TrimStartFinds(s: string) returns (a: nat)
    ensures a <= |s| && TrimStart(s) == s[a..] && (forall i :: 0 <= i < a ==> IsSpace(s[i]))
    ensures a < |s| ==> !IsSpace(s[a])
  {
    a := 0;
    if s != "" && IsSpace(s[0]) {
      var rest := TrimStartFinds(s[1..]);
      a := rest + 1;
      assert s[1..][rest..] == s[a..];
    }
  }

  lemma {:induction false} TrimEndFinds(s: string) returns (b: nat)
    ensures b <= |s| && TrimEnd(s) == s[..b] && (forall i :: b <= i < |s| ==> IsSpace(s[i]))
    ensures 0 < b ==> !IsSpace(s[b - 1])
    decreases |s|
  {
    b := |s|;
    if s != "" && IsSpace(s[|s| - 1]) {
      b := TrimEndFinds(s[..|s| - 1]);
      assert s[..|s| - 1][..b] == s[..b];
    } else {
      assert s[..|s|] == s;
    }
  }

  /** Trimming takes exactly the white space around a text. */
  lemma TrimExactly(s: string) returns (a: nat, b: nat)
    ensures Inner(s, a, b) && Trim(s) == s[a..b]
  {
    a := TrimStartFinds(s);
    var n := TrimEndFinds(s[a..]);
    b := a + n;
    assert s[a..][..n] == s[a..b];
    forall i | b <= i < |s| ensures IsSpace(s[i]) {
      assert s[a..][i - a] == s[i];
    }
  }

  function LowerChar(c: char): char {
    if 'A' <= c <= 'Z' then c - 'A' + 'a' else c
  }

  function Lower(s: string): string {
    seq(|s|, i requires 0 <= i < |s| => LowerChar(s[i]))
  }

  /** Length in bytes of the UTF-8 form. */
  function ByteLength(s: string): nat {
    if s == "" then 0 else CharLength(s[0]) + ByteLength(s[1..])
  }

  function CharLength(c: char): nat {
    if c < '\U{80}' then 1 else if c < '\U{800}' then 2 else if c < '\U{10000}' then 3 else 4
  }
}
