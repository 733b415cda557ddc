/** The string conventions of the planner: variant keys `name@index`,
    production-line scoped names `L<line>#name`, the escaping of `-` for the
    LP dialect, and the small pieces of JavaScript string handling that the
    decoder relies on (`split('#')`, `substr(1)`, `parseInt`). */
module Text {
  import opened Collections

  predicate StartsWith(s: string, prefix: string)
  {
    |prefix| <= |s| && s[..|prefix|] == prefix
  }

  /** The value of an ASCII digit or letter as a digit (letters count from
      10), and 36 for every other character. */
  function CharValue(ch: char): nat
  {
    if '0' <= ch <= '9' then (ch as int) - ('0' as int)
    else if 'a' <= ch <= 'z' then (ch as int) - ('a' as int) + 10
    else if 'A' <= ch <= 'Z' then (ch as int) - ('A' as int) + 10
    else 36
  }

  predicate IsDigitOf(radix: nat, ch: char)
  {
    CharValue(ch) < radix
  }

  predicate AllDigitsOf(radix: nat, s: string)
  {
    forall i :: 0 <= i < |s| ==> IsDigitOf(radix, s[i])
  }

  /** The number a string of digits of the given radix denotes. */
  function RadixValue(radix: nat, s: string): nat
  {
    if s == [] then 0 else RadixValue(radix, s[..|s| - 1]) * radix + CharValue(s[|s| - 1])
  }

  predicate IsDigit(ch: char)
  {
    '0' <= ch <= '9'
  }

  predicate AllDigits(s: string)
  {
    forall i :: 0 <= i < |s| ==> IsDigit(s[i])
  }

  function DigitChar(d: nat): (ch: char)
    requires d < 10
    ensures IsDigit(ch) && (ch as int) - ('0' as int) == d
  {
    (('0' as int) + d) as char
  }

  /** JavaScript's decimal rendering of a non-negative integer, as used when
      the source writes `name + '@' + index` or `'L' + index + '#'`. */
  function NatToString(n: nat): (s: string)
    ensures |s| > 0 && AllDigits(s)
  {
    if n < 10 then [DigitChar(n)] else NatToString(n / 10) + [DigitChar(n % 10)]
  }

  lemma {:induction false} DigitsValueOfNatToString(n: nat)
    ensures RadixValue(10, NatToString(n)) == n
  {
    if n >= 10 {
      var s := NatToString(n);
      assert s[..|s| - 1] == NatToString(n / 10);
      DigitsValueOfNatToString(n / 10);
    }
  }

  lemma NatToStringInjective(a: nat, b: nat)
    ensures NatToString(a) == NatToString(b) ==> a == b
  {
    DigitsValueOfNatToString(a);
    DigitsValueOfNatToString(b);
  }

  /** The longest prefix of `s` made of digits of the given radix. */
  function LeadingDigits(radix: nat, s: string): string
  {
    if s == [] || !IsDigitOf(radix, s[0]) then [] else [s[0]] + LeadingDigits(radix, s[1..])
  }

  /** The characters `parseInt` skips before the number: the white space and
      line terminators of sections 12.2 and 12.3 of ECMA-262 (2024 edition). */
  predicate IsJsSpace(ch: char)
  {
    var n := ch as int;
    n == 0x09 || n == 0x0A || n == 0x0B || n == 0x0C || n == 0x0D || n == 0x20 || n == 0xA0
    || n == 0x1680 || (0x2000 <= n <= 0x200A) || n == 0x2028 || n == 0x2029
    || n == 0x202F || n == 0x205F || n == 0x3000 || n == 0xFEFF
  }

  /** `s` without its leading white space. */
  function TrimStart(s: string): string
  {
    if s != [] && IsJsSpace(s[0]) then TrimStart(s[1..]) else s
  }

  /** `t` without one leading `+` or `-`. */
  function DropSign(t: string): (u: string)
    ensures |u| <= |t|
  {
    if t != [] && (t[0] == '-' || t[0] == '+') then t[1..] else t
  }

  /** The digits `parseInt` reads once the sign is gone: hexadecimal after a
      `0x` or `0X` prefix, decimal otherwise; None when there are none. */
  function ParseUnsigned(u: string): (r: Option<nat>)
  {
    var hex := |u| >= 2 && u[0] == '0' && (u[1] == 'x' || u[1] == 'X');
    var radix := if hex then 16 else 10;
    var d := LeadingDigits(radix, if hex then u[2..] else u);
    if d == [] then None else Some(RadixValue(radix, d))
  }

  /** `parseInt(s)` with no radix (section 19.2.5 of ECMA-262): leading white
      space is skipped, one `+` or `-` is read, a `0x` or `0X` prefix selects
      hexadecimal, and the value is that of the longest run of digits that
      follows; None stands for NaN, when that run is empty. */
  function ParseInt(s: string): (r: Option<int>)
  {
    var t := TrimStart(s);
    match ParseUnsigned(DropSign(t))
    case None => None
    case Some(v) =>
      var w: int := v;
      Some(if t != [] && t[0] == '-' then -w else w)
  }

  /** `parseInt` reads back a rendered line number. */
  lemma ParseIntOfNatToString(n: nat)
    ensures ParseInt(NatToString(n)) == Some(n)
  {
    var s := NatToString(n);
    assert AllDigitsOf(10, s);
    DecimalNotSpace(s[0]);
    ParseIntTrimmed(s, s);
    DigitsValueOfNatToString(n);
  }

  /** `parseInt` skips leading white space before a run of decimal digits. */
  lemma ParseIntTrimmed(x: string, s: string)
    requires |s| > 0 && AllDigitsOf(10, s) && TrimStart(x) == s
    ensures ParseInt(x) == Some(RadixValue(10, s))
  {
    DecimalNotSpace(s[0]);
    assert DropSign(s) == s;
    ParseUnsignedDecimal(s);
  }

  /** `parseInt` reads one `+` or `-` before a run of decimal digits. */
  lemma ParseIntSigned(x: string, s: string)
    requires |x| > 0 && (x[0] == '+' || x[0] == '-') && x[1..] == s
    requires |s| > 0 && AllDigitsOf(10, s)
    ensures var v: int := RadixValue(10, s); ParseInt(x) == Some(if x[0] == '-' then -v else v)
  {
    assert TrimStart(x) == x;
    assert DropSign(x) == s;
    ParseUnsignedDecimal(s);
  }

  /** After a `0x` or `0X` prefix `parseInt` reads hexadecimal digits. */
  lemma ParseIntHex(x: string, s: string)
    requires |x| > 2 && x[0] == '0' && (x[1] == 'x' || x[1] == 'X') && x[2..] == s
    requires AllDigitsOf(16, s)
    ensures ParseInt(x) == Some(RadixValue(16, s))
  {
    assert TrimStart(x) == x;
    assert DropSign(x) == x;
    LeadingDigitsAll(16, s);
  }

  lemma ParseUnsignedDecimal(s: string)
    requires |s| > 0 && AllDigitsOf(10, s)
    ensures ParseUnsigned(s) == Some(RadixValue(10, s))
  {
    if |s| >= 2 {
      DecimalNotSpace(s[1]);
    }
    LeadingDigitsAll(10, s);
  }

  /** A decimal digit is neither white space, a sign nor the `x` of a hex prefix. */
  lemma DecimalNotSpace(ch: char)
    requires IsDigitOf(10, ch)
    ensures '0' <= ch <= '9' && !IsJsSpace(ch)
  {
  }

  lemma {:induction false} LeadingDigitsAll(radix: nat, s: string)
    requires AllDigitsOf(radix, s)
    ensures LeadingDigits(radix, s) == s
  {
    if s != [] {
      LeadingDigitsAll(radix, s[1..]);
    }
  }

  /** The part of `s` before the first `ch` (all of `s` when there is none). */
  function BeforeFirst(s: string, ch: char): (r: string)
    ensures |r| <= |s| && r == s[..|r|] && ch !in r
    ensures |r| < |s| ==> s[|r|] == ch
  {
    if s == [] || s[0] == ch then [] else [s[0]] + BeforeFirst(s[1..], ch)
  }

  /** Cutting `a + [ch] + b` at a `ch` that `a` does not contain gives back `a` and `b`. */
  lemma SplitAtFirst(a: string, ch: char, b: string, c: string, d: string)
    requires ch !in a && ch !in c
    requires a + [ch] + b == c + [ch] + d
    ensures a == c && b == d
  {
    var s := a + [ch] + b;
    assert forall i :: 0 <= i < |a| ==> s[i] != ch;
    assert forall i :: 0 <= i < |c| ==> s[i] != ch;
    assert s[|a|] == ch && s[|c|] == ch;
    assert a == s[..|a|] && c == s[..|c|];
    assert b == s[|a| + 1..] && d == s[|c| + 1..];
  }

  /** Cutting `a + [ch] + b` at a `ch` that `b` does not contain gives back `a` and `b`. */
  lemma SplitAtLast(a: string, ch: char, b: string, c: string, d: string)
    requires ch !in b && ch !in d
    requires a + [ch] + b == c + [ch] + d
    ensures a == c && b == d
  {
    var s := a + [ch] + b;
    assert forall i :: |a| < i < |s| ==> s[i] != ch;
    assert forall i :: |c| < i < |s| ==> s[i] != ch;
    assert s[|a|] == ch && s[|c|] == ch;
    assert a == s[..|a|] && c == s[..|c|];
    assert b == s[|a| + 1..] && d == s[|c| + 1..];
  }

  // ---------------------------------------------------------------------
  // Variant keys and line-scoped names
  // ---------------------------------------------------------------------

  /** `name + '@' + index`: the key of one temperature or ingredient variant. */
  function Key(name: string, index: nat): string
  {
    name + "@" + NatToString(index)
  }

  lemma KeyInjective(a: string, i: nat, b: string, j: nat)
    ensures Key(a, i) == Key(b, j) ==> a == b && i == j
  {
    if Key(a, i) == Key(b, j) {
      assert '@' !in NatToString(i) && '@' !in NatToString(j);
      SplitAtLast(a, '@', NatToString(i), b, NatToString(j));
      NatToStringInjective(i, j);
    }
  }

  /** The key under which a recipe's ingredient or product is balanced: names
      that carry no variant are variant 0 (src/algorithm.js:14 and :18). */
  function MaterialKey(name: string): (k: string)
    ensures '@' !in name ==> k == Key(name, 0)
    ensures '@' in name ==> k == name
  {
    if '@' in name then name else name + "@0"
  }

  /** `'L' + line + '#'`: the prefix of the names scoped to one production line. */
  function LinePrefix(line: nat): string
  {
    "L" + NatToString(line) + "#"
  }

  /** `'L' + line + '#' + name`: a variable or constraint scoped to one production line. */
  function Scoped(line: nat, name: string): string
  {
    LinePrefix(line) + name
  }

  lemma ScopedInjective(i: nat, r: string, j: nat, s: string)
    ensures Scoped(i, r) == Scoped(j, s) ==> i == j && r == s
  {
    if Scoped(i, r) == Scoped(j, s) {
      var x, y := Scoped(i, r), Scoped(j, s);
      assert x[1..] == NatToString(i) + ['#'] + r;
      assert y[1..] == NatToString(j) + ['#'] + s;
      assert '#' !in NatToString(i) && '#' !in NatToString(j);
      SplitAtFirst(NatToString(i), '#', r, NatToString(j), s);
      NatToStringInjective(i, j);
    }
  }

  /** `const [line_, recipe] = k.split('#'); parseInt(line_.substr(1))`
      (src/algorithm.js:105-106): the line number and the recipe key read back
      from a solver column name, or None where the source gets no line it
      can push onto (NaN or a negative number) or no recipe part. */
  function ParseVar(k: string): (r: Option<(nat, string)>)
    ensures r.Some? ==> '#' in k && '#' !in r.value.1
  {
    var head := BeforeFirst(k, '#');
    if |head| == |k| || |head| == 0 then None
    else
      match ParseInt(head[1..])
      case None => None
      case Some(line) => if line < 0 then None else Some((line, BeforeFirst(k[|head| + 1..], '#')))
  }

  /** Cutting `head + '#' + r` at its first `#` and reading the line with
      `parseInt` after the first character of `head`. */
  lemma ParseVarSplit(head: string, r: string)
    requires |head| > 0 && '#' !in head && '#' !in r
    ensures ParseVar(head + ['#'] + r) ==
      match ParseInt(head[1..])
      case Some(line) => if line < 0 then None else Some((line, r))
      case None => None
  {
    var k := head + ['#'] + r;
    var h := BeforeFirst(k, '#');
    assert k[|head|] == '#';
    assert |h| < |k|;
    SplitAtFirst(h, '#', k[|h| + 1..], head, r);
    assert BeforeFirst(r, '#') == r;
  }

  /** Decoding a scoped name gives back the line and the name it was built from. */
  lemma ParseVarScoped(line: nat, name: string)
    requires '#' !in name
    ensures ParseVar(Scoped(line, name)) == Some((line, name))
  {
    var head := "L" + NatToString(line);
    assert head[1..] == NatToString(line);
    ParseVarSplit(head, name);
    ParseIntOfNatToString(line);
  }

  /** `parseInt` reads a sign, so names the solver never produces can still
      reach a line: `L+<i>#r` and `L-0#r` are read as line i and line 0, and
      `L-<i>#r` with i > 0 gives a negative line and so None. */
  lemma ParseVarSigned(sign: char, line: nat, r: string)
    requires sign == '+' || sign == '-'
    requires '#' !in r
    ensures ParseVar(['L', sign] + NatToString(line) + ['#'] + r) ==
      if sign == '-' && line > 0 then None else Some((line, r))
  {
    var digits := NatToString(line);
    var head := ['L', sign] + digits;
    assert '#' !in digits;
    assert '#' !in head;
    assert head[1..] == [sign] + digits;
    SignedLine(sign, line);
    ParseVarSplit(head, r);
  }

  lemma SignedLine(sign: char, line: nat)
    requires sign == '+' || sign == '-'
    ensures var v: int := line; ParseInt([sign] + NatToString(line)) == Some(if sign == '-' then -v else v)
  {
    var digits := NatToString(line);
    var t := [sign] + digits;
    assert t[1..] == digits;
    ParseIntSigned(t, digits);
    DigitsValueOfNatToString(line);
  }

  /** A name without `#` has no recipe part and gives None. */
  lemma ParseVarUnsplit(k: string)
    requires '#' !in k
    ensures ParseVar(k) == None
  {
    assert BeforeFirst(k, '#') == k;
  }

  // ---------------------------------------------------------------------
  // Escaping for the LP dialect
  // ---------------------------------------------------------------------

  /** `name.replace(/-/g, "$")`: the LP dialect does not accept `-` inside names. */
  function Escape(s: string): (r: string)
    ensures |r| == |s| && '-' !in r
  {
    if s == [] then [] else [if s[0] == '-' then '$' else s[0]] + Escape(s[1..])
  }

  /** `name.replace(/\$/g, "-")`: applied to the column names the solver returns. */
  function Unescape(s: string): (r: string)
    ensures |r| == |s| && '$' !in r
  {
    if s == [] then [] else [if s[0] == '$' then '-' else s[0]] + Unescape(s[1..])
  }

  /** Un-escaping undoes escaping for every name that has no `$` of its own. */
  lemma {:induction false} UnescapeEscape(s: string)
    requires '$' !in s
    ensures Unescape(Escape(s)) == s
  {
    if s != [] {
      UnescapeEscape(s[1..]);
      assert Escape(s)[1..] == Escape(s[1..]);
    }
  }

  lemma EscapeInjective(a: string, b: string)
    requires '$' !in a && '$' !in b
    ensures Escape(a) == Escape(b) ==> a == b
  {
    UnescapeEscape(a);
    UnescapeEscape(b);
  }
}
