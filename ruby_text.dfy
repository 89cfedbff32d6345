/** The pieces of Ruby's string handling that the properties and the agent rely
    on: line-anchored regular expressions (`^` and `$` match at every line
    break), Kernel#Integer, String#to_i and the "%o" format. */
module RubyText {
  import opened RubyValues

  predicate IsDigit(c: char) { '0' <= c <= '9' }

  predicate IsOctalDigit(c: char) { '0' <= c <= '7' }

  /** Ruby's ISSPACE: space, tab, line feed, vertical tab, form feed, carriage return. */
  predicate IsSpace(c: char) {
    c == ' ' || c == '\t' || c == '\n' || c == '\r' || c as int == 11 || c as int == 12
  }

  predicate AllDigits(s: string) { forall i | 0 <= i < |s| :: IsDigit(s[i]) }

  predicate AllOctal(s: string) { forall i | 0 <= i < |s| :: IsOctalDigit(s[i]) }

  function DigitValue(c: char): (d: nat)
    requires IsDigit(c)
    ensures d <= 9
  {
    c as int - '0' as int
  }

  function DigitChar(d: nat): (c: char)
    requires d <= 9
    ensures IsDigit(c) && DigitValue(c) == d
    ensures IsOctalDigit(c) <==> d <= 7
  {
    ('0' as int + d) as char
  }

  /** The value of a digit string read in `base`, most significant digit first. */
  function NumberValue(s: string, base: nat): nat
    requires AllDigits(s)
  {
    if s == [] then 0 else NumberValue(s[..|s| - 1], base) * base + DigitValue(s[|s| - 1])
  }

  /** A leading zero never changes the value of a digit string. */
  lemma {:induction false} LeadingZeroKeepsValue(s: string, base: nat)
    requires AllDigits(s)
    ensures AllDigits("0" + s) && NumberValue("0" + s, base) == NumberValue(s, base)
  {
    var t := "0" + s;
    if s == [] {
      assert t[..|t| - 1] == [];
    } else {
      assert t[..|t| - 1] == "0" + s[..|s| - 1];
      LeadingZeroKeepsValue(s[..|s| - 1], base);
    }
  }

  // ---------------------------------------------------------------------------
  // Lines, as Ruby's `^` and `$` anchors see them

  /** The pieces of `s` between line feeds (one piece when there is none). */
  function Lines(s: string): (r: seq<string>)
    ensures |r| >= 1
  {
    if s == [] then [""]
    else
      var rest := Lines(s[1..]);
      if s[0] == '\n' then [""] + rest else [[s[0]] + rest[0]] + rest[1..]
  }

  /** The inverse of Lines: the pieces put back together with line feeds. */
  function JoinLines(ls: seq<string>): string
    requires |ls| >= 1
  {
    if |ls| == 1 then ls[0] else ls[0] + "\n" + JoinLines(ls[1..])
  }

  /** Splitting into lines loses nothing, and no line holds a line feed. */
  lemma {:induction false} LinesRoundTrip(s: string)
    ensures JoinLines(Lines(s)) == s
    ensures forall k | 0 <= k < |Lines(s)| :: '\n' !in Lines(s)[k]
  {
    if s != [] {
      LinesRoundTrip(s[1..]);
      var rest := Lines(s[1..]);
      if s[0] == '\n' {
        assert Lines(s)[1..] == rest;
        assert forall k | 1 <= k < |Lines(s)| :: Lines(s)[k] == rest[k - 1];
      } else {
        var first := [s[0]] + rest[0];
        assert Lines(s) == [first] + rest[1..];
        if |rest| > 1 {
          assert JoinLines(rest) == rest[0] + "\n" + JoinLines(rest[1..]);
          assert JoinLines(Lines(s)) == first + "\n" + JoinLines(rest[1..]);
        }
        assert forall k | 1 <= k < |Lines(s)| :: Lines(s)[k] == rest[k];
      }
    }
  }

  /** A string without a line feed is a single line. */
  lemma {:induction false} SingleLine(s: string)
    requires '\n' !in s
    ensures Lines(s) == [s]
  {
    if s != [] {
      assert '\n' !in s[1..];
      SingleLine(s[1..]);
      assert [s[0]] + s[1..] == s;
    }
  }

  /** `s =~ /^\d+$/` (equally `/^[0-9]+$/`): some line of `s` is a non-empty run of digits. */
  predicate HasDigitLine(s: string): (r: bool)
    ensures r ==> exists c | c in s :: IsDigit(c)
    ensures s != [] && AllDigits(s) ==> r
  {
    DigitLineDigit(s);
    LinesHead(s);
    exists line | line in Lines(s) :: line != [] && AllDigits(line)
  }

  /** A line of digits puts a digit in the string. */
  lemma DigitLineDigit(s: string)
    ensures (exists line | line in Lines(s) :: line != [] && AllDigits(line)) ==> exists c | c in s :: IsDigit(c)
  {
    if exists line | line in Lines(s) :: line != [] && AllDigits(line) {
      var line :| line in Lines(s) && line != [] && AllDigits(line);
      LinesWithin(s);
      assert line[0] in line;
    }
  }

  /** `s =~ /^0/`: some line of `s` starts with a zero. */
  predicate HasZeroLine(s: string): (r: bool)
    ensures r ==> '0' in s
    ensures s != [] && s[0] == '0' ==> r
  {
    LinesWithin(s);
    LinesHead(s);
    exists line | line in Lines(s) :: line != [] && line[0] == '0'
  }

  /** A string without a line feed is its only line, and a string that does not
      start with one starts its first line. */
  lemma LinesHead(s: string)
    ensures '\n' !in s ==> Lines(s) == [s] && s in Lines(s)
    ensures s != [] && s[0] != '\n' ==> Lines(s)[0] != [] && Lines(s)[0][0] == s[0] && Lines(s)[0] in Lines(s)
  {
    if '\n' !in s {
      SingleLine(s);
    }
  }

  /** Every character of every line is a character of the string. */
  lemma {:induction false} LinesWithin(s: string)
    ensures forall k, j | 0 <= k < |Lines(s)| && 0 <= j < |Lines(s)[k]| :: Lines(s)[k][j] in s
    ensures forall line, c | line in Lines(s) && c in line :: c in s
  {
    if s != [] {
      LinesWithin(s[1..]);
      var rest := Lines(s[1..]);
      assert forall c | c in s[1..] :: c in s;
      if s[0] == '\n' {
        assert forall k | 1 <= k < |Lines(s)| :: Lines(s)[k] == rest[k - 1];
      } else {
        assert Lines(s)[0] == [s[0]] + rest[0];
        assert forall k | 1 <= k < |Lines(s)| :: Lines(s)[k] == rest[k];
      }
    }
  }

  /** On a single line both anchored patterns test the whole string. */
  lemma SingleLinePatterns(s: string)
    requires '\n' !in s
    ensures HasDigitLine(s) <==> s != [] && AllDigits(s)
    ensures HasZeroLine(s) <==> s != [] && s[0] == '0'
  {
    SingleLine(s);
  }

  /** A digit in front of the first line keeps a digit line a digit line. */
  lemma PrependDigitKeepsDigitLine(c: char, s: string)
    requires IsDigit(c) && HasDigitLine(s)
    ensures HasDigitLine([c] + s)
  {
    var rest := Lines(s);
    assert ([c] + s)[1..] == s;
    assert Lines([c] + s) == [[c] + rest[0]] + rest[1..];
    var line :| line in rest && line != [] && AllDigits(line);
    if line == rest[0] {
      assert [c] + rest[0] in Lines([c] + s);
    } else {
      assert line in rest[1..];
    }
  }

  // ---------------------------------------------------------------------------
  // Kernel#Integer and String#to_i

  function TrimLeft(s: string): (r: string)
    ensures |r| <= |s|
  {
    if s != [] && IsSpace(s[0]) then TrimLeft(s[1..]) else s
  }

  function TrimRight(s: string): (r: string)
    ensures |r| <= |s|
  {
    if s != [] && IsSpace(s[|s| - 1]) then TrimRight(s[..|s| - 1]) else s
  }

  /** `s` without the whitespace Kernel#Integer tolerates around a number. */
  function Strip(s: string): (r: string)
    ensures |r| <= |s|
    ensures r != [] ==> !IsSpace(r[0]) && !IsSpace(r[|r| - 1])
    ensures s == [] || (!IsSpace(s[0]) && !IsSpace(s[|s| - 1])) ==> r == s
  {
    TrimEnds(s);
    TrimEnds(TrimLeft(s));
    TrimRightKeepsFirst(TrimLeft(s));
    TrimRight(TrimLeft(s))
  }

  /** What TrimLeft keeps does not start with whitespace, and what TrimRight
      keeps does not end with it. */
  lemma {:induction false} TrimEnds(s: string)
    ensures TrimLeft(s) != [] ==> !IsSpace(TrimLeft(s)[0])
    ensures TrimRight(s) != [] ==> !IsSpace(TrimRight(s)[|TrimRight(s)| - 1])
  {
    if s != [] && IsSpace(s[0]) {
      TrimEnds(s[1..]);
    }
    if s != [] && IsSpace(s[|s| - 1]) {
      TrimEnds(s[..|s| - 1]);
    }
  }

  /** TrimRight keeps a first character that is not whitespace. */
  lemma {:induction false} TrimRightKeepsFirst(s: string)
    ensures s != [] && !IsSpace(s[0]) ==> TrimRight(s) != [] && TrimRight(s)[0] == s[0]
  {
    if s != [] && !IsSpace(s[0]) {
      TrimRightShape(s, 1);
    }
  }

  /** Kernel#Integer applied to a String; None is the ArgumentError it raises.
      Surrounding whitespace is skipped; a run of digits that starts with 0 is
      read in octal (and rejected if it holds an 8 or a 9), any other run of
      digits in decimal. Signs, underscores and radix prefixes are read as
      failures: see IntegerOfNeedsOneToken for why no string with a digit line
      can carry one in a readable position. */
  function IntegerOf(s: string): (r: Option<int>)
    ensures r.Some? ==> r.value >= 0
    ensures r.Some? ==> exists t | t == Strip(s) :: t != [] && AllDigits(t)
  {
    var token := Strip(s);
    if token == [] || !AllDigits(token) then None
    else if token[0] == '0' then (if AllOctal(token) then Some(NumberValue(token, 8)) else None)
    else Some(NumberValue(token, 10))
  }

  /** A non-empty run of digits is its own stripped token. */
  lemma StripDigits(s: string)
    requires s != [] && AllDigits(s)
    ensures Strip(s) == s
  {
    assert !IsSpace(s[0]) && !IsSpace(s[|s| - 1]);
  }

  /** Why IntegerOf may treat everything but a bare run of digits as a failure:
      when `s` has a digit line, the stripped token either is a run of digits
      or holds a whitespace character, which Kernel#Integer rejects in any case. */
  lemma {:induction false} IntegerOfNeedsOneToken(s: string)
    requires HasDigitLine(s)
    ensures (Strip(s) != [] && AllDigits(Strip(s))) || exists i | 0 <= i < |Strip(s)| :: IsSpace(Strip(s)[i])
  {
    var ls := Lines(s);
    var line :| line in ls && line != [] && AllDigits(line);
    LinesRoundTrip(s);
    var k :| 0 <= k < |ls| && ls[k] == line;
    var pre := JoinPrefix(ls, k);
    JoinSplit(ls, k);
    JoinPrefixEnds(ls, k);
    JoinLineEnds(ls, k);
    // the digit line sits in s between line feeds (or the ends of s)
    var a, b := |pre|, |pre| + |line|;
    assert s == pre + line + s[b..];
    assert s[a..b] == line;
    assert a > 0 ==> s[a - 1] == pre[a - 1] == '\n';
    TokenAroundDigits(s, a, b);
  }

  /** The lines before line k, each followed by its line feed. */
  function JoinPrefix(ls: seq<string>, k: nat): string
    requires k < |ls|
  {
    if k == 0 then [] else ls[0] + "\n" + JoinPrefix(ls[1..], k - 1)
  }

  /** Line k of the lines sits in the joined text right after the lines
      before it. */
  lemma {:induction false} JoinSplit(ls: seq<string>, k: nat)
    requires k < |ls|
    ensures |JoinPrefix(ls, k)| + |ls[k]| <= |JoinLines(ls)|
    ensures JoinLines(ls) == JoinPrefix(ls, k) + ls[k] + JoinLines(ls)[|JoinPrefix(ls, k)| + |ls[k]|..]
  {
    if k == 0 {
      if |ls| > 1 {
        assert JoinLines(ls) == ls[0] + ("\n" + JoinLines(ls[1..]));
      }
    } else {
      JoinSplit(ls[1..], k - 1);
      var h, p, j := ls[0] + "\n", JoinPrefix(ls[1..], k - 1), JoinLines(ls[1..]);
      assert ls[1..][k - 1] == ls[k];
      assert JoinPrefix(ls, k) == h + p;
      assert JoinLines(ls) == h + j;
    }
  }

  /** The lines before line k end with a line feed, when there are any. */
  lemma {:induction false} JoinPrefixEnds(ls: seq<string>, k: nat)
    requires k < |ls|
    ensures JoinPrefix(ls, k) == [] || JoinPrefix(ls, k)[|JoinPrefix(ls, k)| - 1] == '\n'
  {
    if k > 0 {
      JoinPrefixEnds(ls[1..], k - 1);
    }
  }

  /** Line k is followed, in the joined text, by a line feed or the end. */
  lemma {:induction false} JoinLineEnds(ls: seq<string>, k: nat)
    requires k < |ls|
    ensures |JoinLines(ls)| > |JoinPrefix(ls, k)| + |ls[k]| ==> JoinLines(ls)[|JoinPrefix(ls, k)| + |ls[k]|] == '\n'
  {
    if k == 0 {
      if |ls| > 1 {
        assert JoinLines(ls) == ls[0] + ("\n" + JoinLines(ls[1..]));
      }
    } else {
      JoinLineEnds(ls[1..], k - 1);
      var h := ls[0] + "\n";
      assert ls[1..][k - 1] == ls[k];
      assert JoinPrefix(ls, k) == h + JoinPrefix(ls[1..], k - 1);
      assert JoinLines(ls) == h + JoinLines(ls[1..]);
    }
  }

  /** Stripping `s`, where s[a..b] is a non-empty run of digits with a line
      feed (or the end of `s`) on either side, leaves either that run alone or
      a token with whitespace inside. */
  lemma TokenAroundDigits(s: string, a: nat, b: nat)
    requires a < b <= |s| && AllDigits(s[a..b])
    requires a > 0 ==> s[a - 1] == '\n'
    requires b < |s| ==> s[b] == '\n'
    ensures (Strip(s) != [] && AllDigits(Strip(s)))
         || exists i | 0 <= i < |Strip(s)| :: IsSpace(Strip(s)[i])
  {
    assert !IsSpace(s[a]) by { assert s[a] == s[a..b][0]; }
    assert !IsSpace(s[b - 1]) by { assert s[b - 1] == s[a..b][b - 1 - a]; }
    TrimLeftShape(s, a);
    var l := TrimLeft(s);
    var off := |s| - |l|;
    TrimRightShape(l, b - off);
    var t := TrimRight(l);
    assert Strip(s) == t;
    TokenWithin(s, a, b, off, t);
  }

  /** A slice of `s` that covers the run s[a..b] is that run alone, or reaches
      a line feed on one side of it. */
  lemma TokenWithin(s: string, a: nat, b: nat, off: nat, t: string)
    requires a < b <= |s| && AllDigits(s[a..b])
    requires a > 0 ==> s[a - 1] == '\n'
    requires b < |s| ==> s[b] == '\n'
    requires off <= a && b <= off + |t| <= |s| && t == s[off..off + |t|]
    ensures (t != [] && AllDigits(t)) || exists i | 0 <= i < |t| :: IsSpace(t[i])
  {
    if off < a {
      assert t[a - 1 - off] == s[a - 1];
    } else if off + |t| > b {
      assert t[b - off] == s[b];
    } else {
      assert t == s[a..b];
    }
  }

  /** TrimLeft drops whitespace only, and stops at position `a` at the latest
      when s[a] is not whitespace. */
  lemma {:induction false} TrimLeftShape(s: string, a: nat)
    requires a < |s| && !IsSpace(s[a])
    ensures |s| - |TrimLeft(s)| <= a
    ensures TrimLeft(s) == s[|s| - |TrimLeft(s)|..]
    ensures forall i | 0 <= i < |s| - |TrimLeft(s)| :: IsSpace(s[i])
  {
    if s != [] && IsSpace(s[0]) {
      TrimLeftShape(s[1..], a - 1);
    }
  }

  /** Dually for TrimRight, keeping at least the first `b` characters when s[b - 1] is not whitespace. */
  lemma {:induction false} TrimRightShape(s: string, b: nat)
    requires 0 < b <= |s| && !IsSpace(s[b - 1])
    ensures b <= |TrimRight(s)|
    ensures TrimRight(s) == s[..|TrimRight(s)|]
    ensures forall i | |TrimRight(s)| <= i < |s| :: IsSpace(s[i])
  {
    if s != [] && IsSpace(s[|s| - 1]) {
      TrimRightShape(s[..|s| - 1], b);
    }
  }

  /** The digits String#to_i reads at the front of `s`: digits, with single
      underscores allowed between them. */
  function LeadingDigits(s: string): (r: string)
    ensures AllDigits(r) && |r| <= |s|
  {
    if s == [] || !IsDigit(s[0]) then []
    else if |s| >= 2 && s[1] == '_' then [s[0]] + LeadingDigits(s[2..])
    else [s[0]] + LeadingDigits(s[1..])
  }

  /** String#to_i: leading whitespace, an optional sign, then decimal digits up
      to the first character that cannot continue the number; 0 when there are none. */
  function StringToI(s: string): (r: int)
    ensures r < 0 ==> TrimLeft(s) != [] && TrimLeft(s)[0] == '-'
    ensures TrimLeft(s) == [] || !(IsDigit(TrimLeft(s)[0]) || TrimLeft(s)[0] == '-' || TrimLeft(s)[0] == '+') ==> r == 0
  {
    var t := TrimLeft(s);
    if t != [] && t[0] == '-' then -(NumberValue(LeadingDigits(t[1..]), 10) as int)
    else if t != [] && t[0] == '+' then NumberValue(LeadingDigits(t[1..]), 10)
    else NumberValue(LeadingDigits(t), 10)
  }

  /** A string of digits is read whole and in decimal, leading zeros and all. */
  lemma {:induction false} StringToIDigits(s: string)
    requires s != [] && AllDigits(s)
    ensures StringToI(s) == NumberValue(s, 10)
  {
    assert TrimLeft(s) == s;
    LeadingDigitsWhole(s);
  }

  lemma {:induction false} LeadingDigitsWhole(s: string)
    requires AllDigits(s)
    ensures LeadingDigits(s) == s
  {
    if s != [] {
      LeadingDigitsWhole(s[1..]);
      assert [s[0]] + s[1..] == s;
    }
  }

  // ---------------------------------------------------------------------------
  // The "%o" format

  /** `"%o" % n` for n >= 0: octal digits without a leading zero. */
  function OctalDigits(n: nat): (r: string)
    ensures r != [] && AllDigits(r) && AllOctal(r)
    ensures (r[0] == '0') == (n == 0)
    ensures NumberValue(r, 8) == n
  {
    if n < 8 then [DigitChar(n)]
    else
      var p := OctalDigits(n / 8);
      var r := p + [DigitChar(n % 8)];
      assert r[..|r| - 1] == p;
      r
  }

  function Pow8(k: nat): nat {
    if k == 0 then 1 else 8 * Pow8(k - 1)
  }

  /** The digits "%o" prints after ".." for n < 0: the shortest octal two's
      complement of n, which starts with one 7 (never two). */
  function NegativeOctalDigits(n: int): (r: string)
    requires n < 0
    decreases -n
    ensures r != [] && AllDigits(r) && AllOctal(r) && r[0] == '7'
    ensures (|r| == 1) == (n == -1)
    ensures |r| >= 2 ==> r[1] != '7'
    ensures NumberValue(r, 8) == n + Pow8(|r|)
  {
    if n == -1 then "7"
    else
      var p := NegativeOctalDigits(n / 8);
      var r := p + [DigitChar(n % 8)];
      assert r[..|r| - 1] == p;
      assert n / 8 == -1 ==> n % 8 == n + 8;
      r
  }

  /** Ruby's `"%o" % n`. */
  function FormatOctal(n: int): (r: string)
    ensures n >= 0 ==> AllDigits(r) && AllOctal(r) && r != [] && NumberValue(r, 8) == n && (r[0] == '0' <==> n == 0)
    ensures n < 0 ==> |r| >= 3 && r[..3] == "..7"
  {
    if n >= 0 then OctalDigits(n) else ".." + NegativeOctalDigits(n)
  }
}
