/** The parts of Go's `strings`, `fmt` and `unicode` packages that the plugin
    relies on, over `string` (a sequence of characters). Go indexes strings by
    byte; every test in the plugin compares an index only with 0 or -1, and
    for those tests character and byte positions agree. */
module GoStrings {

  /** `sub` occurs in `s` starting at position `i`. */
  predicate IsAt(s: string, sub: string, i: nat) {
    i + |sub| <= |s| && s[i..i + |sub|] == sub
  }

  /** `strings.Index`: the first position at which `sub` occurs in `s`, or -1. */
  function Index(s: string, sub: string): (r: int)
    ensures -1 <= r <= |s|
    ensures r >= 0 ==> IsAt(s, sub, r) && forall j :: 0 <= j < r ==> !IsAt(s, sub, j)
    ensures r == -1 <==> forall j :: 0 <= j <= |s| ==> !IsAt(s, sub, j)
  {
    IndexFrom(s, sub, 0)
  }

  /** The first occurrence of `sub` in `s` at or after position `k`, or -1. */
  function IndexFrom(s: string, sub: string, k: nat): (r: int)
    requires k <= |s|
    ensures r == -1 || k <= r <= |s|
    ensures r >= 0 ==> IsAt(s, sub, r) && forall j :: k <= j < r ==> !IsAt(s, sub, j)
    ensures r == -1 <==> forall j :: k <= j <= |s| ==> !IsAt(s, sub, j)
    decreases |s| - k
  {
    if IsAt(s, sub, k) then k
    else if k == |s| then -1
    else IndexFrom(s, sub, k + 1)
  }

  /** `strings.Contains`. */
  predicate Contains(s: string, sub: string) {
    Index(s, sub) >= 0
  }

  /** `strings.HasPrefix`. */
  predicate HasPrefix(s: string, prefix: string) {
    |prefix| <= |s| && s[..|prefix|] == prefix
  }

  /** `strings.TrimPrefix`. */
  function TrimPrefix(s: string, prefix: string): (r: string)
    ensures HasPrefix(s, prefix) ==> prefix + r == s
    ensures !HasPrefix(s, prefix) ==> r == s
  {
    if HasPrefix(s, prefix) then s[|prefix|..] else s
  }

  /** Inverse of `Split`: the pieces glued together with `sep` between them. */
  function Join(pieces: seq<string>, sep: string): string {
    if |pieces| == 0 then ""
    else if |pieces| == 1 then pieces[0]
    else pieces[0] + sep + Join(pieces[1..], sep)
  }

  /** `strings.Split` for a non-empty separator: the texts between the
      leftmost non-overlapping occurrences of `sep`. */
  function Split(s: string, sep: string): (r: seq<string>)
    requires sep != ""
    ensures |r| >= 1
    ensures Join(r, sep) == s
    ensures forall k :: 0 <= k < |r| ==> !Contains(r[k], sep)
    decreases |s|
  {
    var i := Index(s, sep);
    if i < 0 then [s]
    else
      var head := s[..i];
      assert !Contains(head, sep) by {
        forall j | 0 <= j <= |head| ensures !IsAt(head, sep, j) {
          if IsAt(head, sep, j) {
            assert s[j..j + |sep|] == head[j..j + |sep|];
            assert IsAt(s, sep, j);
          }
        }
      }
      [head] + Split(s[i + |sep|..], sep)
  }

  /** A text without the separator is a single piece. */
  lemma SplitWithout(s: string, sep: string)
    requires sep != "" && !Contains(s, sep)
    ensures Split(s, sep) == [s]
  {
  }

  /** With a one-character separator, a piece followed by the separator
      splits off as the first piece. */
  lemma {:induction false} SplitCons(a: string, c: char, b: string)
    requires !Contains(a, [c])
    ensures Split(a + [c] + b, [c]) == [a] + Split(b, [c])
  {
    var s := a + [c] + b;
    assert IsAt(s, [c], |a|);
    forall j | 0 <= j < |a| ensures !IsAt(s, [c], j) {
      if IsAt(s, [c], j) {
        assert IsAt(a, [c], j);
      }
    }
    assert Index(s, [c]) == |a|;
    assert s[..|a|] == a;
    assert s[|a| + 1..] == b;
  }

  /** Splitting the join of pieces that hold no separator gives the pieces
      back (one-character separator). */
  lemma {:induction false} SplitJoin(pieces: seq<string>, c: char)
    requires |pieces| >= 1
    requires forall k :: 0 <= k < |pieces| ==> !Contains(pieces[k], [c])
    ensures Split(Join(pieces, [c]), [c]) == pieces
    decreases |pieces|
  {
    if |pieces| == 1 {
      SplitWithout(pieces[0], [c]);
    } else {
      SplitJoin(pieces[1..], c);
      SplitCons(pieces[0], c, Join(pieces[1..], [c]));
    }
  }

  /** Where `sub` occurs, each of its characters is in place. */
  lemma IsAtChar(s: string, sub: string, i: nat, k: nat)
    requires IsAt(s, sub, i) && k < |sub|
    ensures s[i + k] == sub[k]
  {
    assert s[i..i + |sub|][k] == s[i + k];
  }

  /** An occurrence stays one, shifted, inside a longer text. */
  lemma IsAtWithin(p: string, s: string, q: string, sub: string, i: nat)
    requires IsAt(s, sub, i)
    ensures IsAt(p + s + q, sub, |p| + i)
  {
    var t := p + s + q;
    assert t[|p| + i..|p| + i + |sub|] == s[i..i + |sub|];
  }

  /** A one-character text occurs in `s` exactly when that character does. */
  lemma ContainsChar(s: string, c: char)
    ensures Contains(s, [c]) <==> exists k :: 0 <= k < |s| && s[k] == c
  {
    if Contains(s, [c]) {
      var i := Index(s, [c]);
      assert s[i..i + 1] == [c];
      assert s[i] == c;
    }
    if exists k :: 0 <= k < |s| && s[k] == c {
      var k :| 0 <= k < |s| && s[k] == c;
      assert s[k..k + 1] == [c];
      assert IsAt(s, [c], k);
    }
  }

  /** Where a one-character text does not occur, that character is absent. */
  lemma NoCharBefore(s: string, c: char, i: nat)
    requires i <= |s|
    requires forall j :: 0 <= j < i ==> !IsAt(s, [c], j)
    ensures forall k :: 0 <= k < i ==> s[k] != c
  {
    forall k | 0 <= k < i
      ensures s[k] != c
    {
      if s[k] == c {
        assert s[k..k + 1] == [c];
        assert IsAt(s, [c], k);
      }
    }
  }

  /** Gluing text onto the first piece glues it onto the whole join. */
  lemma JoinPrependFirst(t: string, pieces: seq<string>, sep: string)
    requires |pieces| >= 1
    ensures Join([t + pieces[0]] + pieces[1..], sep) == t + Join(pieces, sep)
  {
    var glued := [t + pieces[0]] + pieces[1..];
    if |pieces| > 1 {
      assert glued[1..] == pieces[1..];
    }
  }

  /** `strings.Count`: the number of leftmost non-overlapping occurrences
      of `sep` in `s`. */
  function Count(s: string, sep: string): nat
    requires sep != ""
    decreases |s|
  {
    var i := Index(s, sep);
    if i < 0 then 0 else 1 + Count(s[i + |sep|..], sep)
  }

  /** `Split` cuts at every occurrence `Count` counts: one piece more than
      there are separators. */
  lemma {:induction false} SplitCount(s: string, sep: string)
    requires sep != ""
    ensures |Split(s, sep)| == Count(s, sep) + 1
    decreases |s|
  {
    var i := Index(s, sep);
    if i >= 0 {
      SplitCount(s[i + |sep|..], sep);
    }
  }

  /** A character is one of the one-character strings in `cutset`. */
  predicate InCutset(ch: char, cutset: string) {
    ch in cutset
  }

  /** `strings.TrimLeft`: drops every leading character that belongs to the
      cutset (a set of characters, not a prefix). */
  function TrimLeft(s: string, cutset: string): (r: string)
    ensures |r| <= |s| && r == s[|s| - |r|..]
    ensures forall k :: 0 <= k < |s| - |r| ==> InCutset(s[k], cutset)
    ensures r == "" || !InCutset(r[0], cutset)
  {
    if s != "" && InCutset(s[0], cutset) then
      var r := TrimLeft(s[1..], cutset);
      assert s[1..][|s| - 1 - |r|..] == s[|s| - |r|..];
      assert forall k :: 1 <= k < |s| - |r| ==> s[k] == s[1..][k - 1];
      r
    else s
  }

  /** `strings.TrimRight` with a cutset. */
  function TrimRight(s: string, cutset: string): (r: string)
    ensures |r| <= |s| && r == s[..|r|]
    ensures forall k :: |r| <= k < |s| ==> InCutset(s[k], cutset)
    ensures r == "" || !InCutset(r[|r| - 1], cutset)
  {
    if s != "" && InCutset(s[|s| - 1], cutset) then TrimRight(s[..|s| - 1], cutset) else s
  }

  /** `strings.Trim` with a cutset. */
  function Trim(s: string, cutset: string): string {
    TrimRight(TrimLeft(s, cutset), cutset)
  }

  /** `unicode.IsSpace`. */
  predicate IsSpace(ch: char) {
    ch == '\t' || ch == '\n' || ch == '\U{000B}' || ch == '\U{000C}' || ch == '\r' || ch == ' '
    || ch == '\U{0085}' || ch == '\U{00A0}' || ch == '\U{1680}'
    || ('\U{2000}' <= ch <= '\U{200A}')
    || ch == '\U{2028}' || ch == '\U{2029}' || ch == '\U{202F}' || ch == '\U{205F}' || ch == '\U{3000}'
  }

  /** `strings.TrimSpace`: drops leading and trailing white space. */
  function TrimSpace(s: string): (r: string)
    ensures r == "" || (!IsSpace(r[0]) && !IsSpace(r[|r| - 1]))
  {
    TrimRightSpace(TrimLeftSpace(s))
  }

  function TrimLeftSpace(s: string): (r: string)
    ensures |r| <= |s| && r == s[|s| - |r|..]
    ensures forall k :: 0 <= k < |s| - |r| ==> IsSpace(s[k])
    ensures r == "" || !IsSpace(r[0])
  {
    if s != "" && IsSpace(s[0]) then TrimLeftSpace(s[1..]) else s
  }

  function TrimRightSpace(s: string): (r: string)
    ensures |r| <= |s| && r == s[..|r|]
    ensures forall k :: |r| <= k < |s| ==> IsSpace(s[k])
    ensures r == "" || !IsSpace(r[|r| - 1])
  {
    if s != "" && IsSpace(s[|s| - 1]) then TrimRightSpace(s[..|s| - 1]) else s
  }

  /** `strings.LastIndex`: the last position at which `sub` occurs, or -1. */
  function LastIndex(s: string, sub: string): (r: int)
    ensures -1 <= r <= |s|
    ensures r >= 0 ==> IsAt(s, sub, r) && forall j :: r < j <= |s| ==> !IsAt(s, sub, j)
    ensures r == -1 <==> forall j :: 0 <= j <= |s| ==> !IsAt(s, sub, j)
  {
    LastIndexBelow(s, sub, |s|)
  }

  /** The last occurrence of `sub` in `s` at or before position `k`, or -1. */
  function LastIndexBelow(s: string, sub: string, k: nat): (r: int)
    requires k <= |s|
    ensures -1 <= r <= k
    ensures r >= 0 ==> IsAt(s, sub, r) && forall j :: r < j <= k ==> !IsAt(s, sub, j)
    ensures r == -1 <==> forall j :: 0 <= j <= k ==> !IsAt(s, sub, j)
  {
    if IsAt(s, sub, k) then k
    else if k == 0 then -1
    else LastIndexBelow(s, sub, k - 1)
  }

  predicate IsDigit(ch: char) {
    '0' <= ch <= '9'
  }

  function DigitChar(d: nat): (ch: char)
    requires d < 10
    ensures IsDigit(ch)
  {
    ['0', '1', '2', '3', '4', '5', '6', '7', '8', '9'][d]
  }

  function DigitValue(ch: char): (d: nat)
    requires IsDigit(ch)
    ensures d < 10
  {
    (ch as int - '0' as int) as nat
  }

  /** `fmt.Sprintf("%d", n)` for a non-negative `n`. */
  function Decimal(n: nat): (r: string)
    ensures |r| >= 1 && forall k :: 0 <= k < |r| ==> IsDigit(r[k])
  {
    if n < 10 then [DigitChar(n)] else Decimal(n / 10) + [DigitChar(n % 10)]
  }

  /** `fmt`'s `%d` for any integer. */
  function FormatInt(i: int): string {
    if i < 0 then "-" + Decimal(-i) else Decimal(i)
  }

  /** Reads a run of decimal digits back as a number. */
  function ParseDecimal(s: string): nat
    requires forall k :: 0 <= k < |s| ==> IsDigit(s[k])
  {
    if s == "" then 0 else 10 * ParseDecimal(s[..|s| - 1]) + DigitValue(s[|s| - 1])
  }

  lemma {:induction false} DecimalRoundTrip(n: nat)
    ensures ParseDecimal(Decimal(n)) == n
  {
    if n >= 10 {
      DecimalRoundTrip(n / 10);
      var r := Decimal(n);
      assert r[..|r| - 1] == Decimal(n / 10);
    }
  }

  /** Different numbers give different decimal texts. */
  lemma DecimalInjective(m: nat, n: nat)
    requires Decimal(m) == Decimal(n)
    ensures m == n
  {
    DecimalRoundTrip(m);
    DecimalRoundTrip(n);
  }
}
