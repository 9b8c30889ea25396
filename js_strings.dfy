/**
 * The JavaScript string builtins the frontend uses, over ASCII: the `\s`
 * character class and what `trim` strips, `toLowerCase`, `split(sep)[0]`,
 * `replace(/\s+/g, '')`, `replace(/\./g, 'dot')` and `includes`.
 */
module JsStrings {

  /** ASCII members of `\s`: space, tab, line feed, vertical tab, form feed, carriage return. */
  predicate IsWhitespace(c: char) {
    c == ' ' || c == '\t' || c == '\n' || c == '\U{000B}' || c == '\U{000C}' || c == '\r'
  }

  predicate IsUpper(c: char) {
    'A' <= c <= 'Z'
  }

  predicate NoWhitespace(s: string) {
    forall i :: 0 <= i < |s| ==> !IsWhitespace(s[i])
  }

  /** Every character of `s` from position `lo` up to (not including) `hi` is whitespace. */
  predicate WhitespaceBetween(s: string, lo: int, hi: int) {
    forall i :: lo <= i < hi && 0 <= i < |s| ==> IsWhitespace(s[i])
  }

  predicate NoUpper(s: string) {
    forall i :: 0 <= i < |s| ==> !IsUpper(s[i])
  }

  lemma NoUpperConcat(x: string, y: string)
    requires NoUpper(x) && NoUpper(y)
    ensures NoUpper(x + y)
  {
    assert forall i :: 0 <= i < |x + y| ==> (x + y)[i] == if i < |x| then x[i] else y[i - |x|];
  }

  lemma NoWhitespaceConcat(x: string, y: string)
    requires NoWhitespace(x) && NoWhitespace(y)
    ensures NoWhitespace(x + y)
  {
    assert forall i :: 0 <= i < |x + y| ==> (x + y)[i] == if i < |x| then x[i] else y[i - |x|];
  }

  function LowerChar(c: char): (r: char)
    ensures !IsUpper(r)
    ensures IsWhitespace(r) <==> IsWhitespace(c)
    ensures r == '/' <==> c == '/'
    ensures r == '.' <==> c == '.'
    ensures !IsUpper(c) ==> r == c
    ensures IsUpper(c) ==> r as int == c as int + 32
  {
    if IsUpper(c) then (c as int + 32) as char else c
  }

  /** `s.toLowerCase()` */
  function ToLower(s: string): (r: string)
    ensures |r| == |s|
    ensures forall i :: 0 <= i < |s| ==> r[i] == LowerChar(s[i])
    ensures NoUpper(r)
    ensures '/' !in s ==> '/' !in r
    ensures NoUpper(s) ==> r == s
  {
    seq(|s|, i requires 0 <= i < |s| => LowerChar(s[i]))
  }

  /** Leading whitespace removed. */
  function TrimStart(s: string): (r: string)
    ensures r == [] || !IsWhitespace(r[0])
  {
    if s != [] && IsWhitespace(s[0]) then TrimStart(s[1..]) else s
  }

  /** Trailing whitespace removed. */
  function TrimEnd(s: string): (r: string)
    ensures r == [] || !IsWhitespace(r[|r| - 1])
  {
    if s != [] && IsWhitespace(s[|s| - 1]) then TrimEnd(s[..|s| - 1]) else s
  }

  /** `s.trim()` */
  function Trim(s: string): (r: string)
    ensures |r| <= |s|
  {
    TrimStartDropsPrefix(s);
    TrimEndDropsSuffix(TrimStart(s));
    TrimEnd(TrimStart(s))
  }

  /** `TrimStart` removes a prefix made of whitespace and nothing else. */
  lemma {:induction false} TrimStartDropsPrefix(s: string)
    ensures |TrimStart(s)| <= |s|
    ensures TrimStart(s) == s[|s| - |TrimStart(s)|..]
    ensures WhitespaceBetween(s, 0, |s| - |TrimStart(s)|)
  {
    if s != [] && IsWhitespace(s[0]) {
      TrimStartDropsPrefix(s[1..]);
      var n := |s| - |TrimStart(s[1..])|;
      assert s[1..][n - 1..] == s[n..];
      forall i | 0 < i < n ensures IsWhitespace(s[i]) {
        assert s[i] == s[1..][i - 1];
      }
    }
  }

  /** `TrimEnd` removes a suffix made of whitespace and nothing else. */
  lemma {:induction false} TrimEndDropsSuffix(s: string)
    ensures |TrimEnd(s)| <= |s|
    ensures TrimEnd(s) == s[..|TrimEnd(s)|]
    ensures WhitespaceBetween(s, |TrimEnd(s)|, |s|)
  {
    if s != [] && IsWhitespace(s[|s| - 1]) {
      var p := s[..|s| - 1];
      TrimEndDropsSuffix(p);
      assert p[..|TrimEnd(p)|] == s[..|TrimEnd(p)|];
      forall i | |TrimEnd(p)| <= i < |s| - 1 ensures IsWhitespace(s[i]) {
        assert s[i] == p[i];
      }
    }
  }

  /** `trim` leaves no whitespace at either end. */
  lemma TrimCleanEnds(s: string)
    ensures Trim(s) == [] || (!IsWhitespace(Trim(s)[0]) && !IsWhitespace(Trim(s)[|Trim(s)| - 1]))
  {
    var t := TrimStart(s);
    TrimEndDropsSuffix(t);
    assert TrimEnd(t) != [] ==> TrimEnd(t)[0] == t[0];
  }

  /**
   * `trim` keeps the stretch of the text from `n` on, where `n` is the length
   * of the leading whitespace; all that it cuts off on either side is whitespace.
   */
  lemma TrimKeepsMiddle(s: string)
    ensures var n := |s| - |TrimStart(s)|;
      0 <= n && n + |Trim(s)| <= |s| && Trim(s) == s[n..n + |Trim(s)|] &&
      WhitespaceBetween(s, 0, n) && WhitespaceBetween(s, n + |Trim(s)|, |s|)
  {
    var t := TrimStart(s);
    var r := TrimEnd(t);
    assert Trim(s) == r;
    TrimStartDropsPrefix(s);
    TrimEndDropsSuffix(t);
    var n := |s| - |t|;
    StretchBetween(s, t, r, n);
    assert 0 <= n && n + |r| <= |s| && r == s[n..n + |r|];
  }

  /** `trim` introduces no character, and leaves text without whitespace as it is. */
  lemma TrimWithin(s: string)
    ensures forall c :: c in Trim(s) ==> c in s
    ensures NoWhitespace(s) ==> Trim(s) == s
  {
    TrimKeepsMiddle(s);
    var n := |s| - |TrimStart(s)|;
    var m := n + |Trim(s)|;
    forall c | c in Trim(s) ensures c in s {
      var i :| 0 <= i < |Trim(s)| && Trim(s)[i] == c;
      assert s[n + i] == c;
    }
    if NoWhitespace(s) {
      assert s == [] || !IsWhitespace(s[0]);
      assert s == [] || !IsWhitespace(s[|s| - 1]);
    }
  }

  /** A prefix cut off, then a whitespace suffix: what is left is a stretch of the text. */
  lemma StretchBetween(s: string, t: string, r: string, n: int)
    requires 0 <= n <= |s| && t == s[n..]
    requires |r| <= |t| && r == t[..|r|] && WhitespaceBetween(t, |r|, |t|)
    ensures n + |r| <= |s| && r == s[n..n + |r|]
    ensures WhitespaceBetween(s, n + |r|, |s|)
  {
    assert s[n..][..|r|] == s[n..n + |r|];
    forall i | n + |r| <= i < |s| ensures IsWhitespace(s[i]) {
      assert s[i] == t[i - n];
    }
  }

  /** `s.split(sep)[0]`: everything before the first `sep`, or all of `s`. */
  function BeforeFirst(s: string, sep: char): (r: string)
    ensures sep !in r
    ensures r <= s
    ensures sep !in s ==> r == s
  {
    if s == [] || s[0] == sep then [] else [s[0]] + BeforeFirst(s[1..], sep)
  }

  /** Only the text up to the first `sep` matters. */
  lemma {:induction false} BeforeFirstStops(a: string, sep: char, b: string)
    requires sep !in a
    ensures BeforeFirst(a + [sep] + b, sep) == a
  {
    if a != [] {
      assert (a + [sep] + b)[0] == a[0];
      assert (a + [sep] + b)[1..] == a[1..] + [sep] + b;
      BeforeFirstStops(a[1..], sep, b);
    } else {
      assert (a + [sep] + b)[0] == sep;
    }
  }

  /** `s.replace(/\s+/g, '')`: every whitespace character dropped. */
  function RemoveWhitespace(s: string): (r: string)
    ensures |r| <= |s|
  {
    if s == [] then []
    else if IsWhitespace(s[0]) then RemoveWhitespace(s[1..])
    else [s[0]] + RemoveWhitespace(s[1..])
  }

  /** No whitespace survives `replace(/\s+/g, '')`. */
  lemma {:induction false} RemoveWhitespaceLeavesNone(s: string)
    ensures NoWhitespace(RemoveWhitespace(s))
  {
    if s != [] {
      RemoveWhitespaceLeavesNone(s[1..]);
      if !IsWhitespace(s[0]) {
        NoWhitespaceConcat([s[0]], RemoveWhitespace(s[1..]));
      }
    }
  }

  /** Removing whitespace introduces no character. */
  lemma {:induction false} RemoveWhitespaceAddsNothing(s: string, c: char)
    requires c !in s
    ensures c !in RemoveWhitespace(s)
  {
    if s != [] {
      RemoveWhitespaceAddsNothing(s[1..], c);
    }
  }

  lemma {:induction false} RemoveWhitespaceNoUpper(s: string)
    requires NoUpper(s)
    ensures NoUpper(RemoveWhitespace(s))
  {
    if s != [] {
      assert NoUpper(s[1..]);
      RemoveWhitespaceNoUpper(s[1..]);
      if !IsWhitespace(s[0]) {
        NoUpperConcat([s[0]], RemoveWhitespace(s[1..]));
      }
    }
  }

  /** Text without whitespace is left as it is. */
  lemma {:induction false} RemoveWhitespaceWithoutWhitespace(s: string)
    requires NoWhitespace(s)
    ensures RemoveWhitespace(s) == s
  {
    if s != [] {
      assert !IsWhitespace(s[0]) && NoWhitespace(s[1..]);
      RemoveWhitespaceWithoutWhitespace(s[1..]);
      assert s == [s[0]] + s[1..];
    }
  }

  /** The replacement of one character: "dot" for '.', the character itself otherwise. */
  function SpellDot(c: char): string {
    if c == '.' then "dot" else [c]
  }

  function ReplaceDots(s: string): (r: string)
    ensures |r| >= |s|
  {
    if s == [] then [] else SpellDot(s[0]) + ReplaceDots(s[1..])
  }

  /** No '.' survives `replace(/\./g, 'dot')`. */
  lemma {:induction false} ReplaceDotsLeavesNoDot(s: string)
    ensures '.' !in ReplaceDots(s)
  {
    if s != [] {
      ReplaceDotsLeavesNoDot(s[1..]);
    }
  }

  /** A character other than '.' that does not occur in "dot" is not introduced. */
  lemma {:induction false} ReplaceDotsAddsNothing(s: string, c: char)
    requires c != '.' && c !in "dot" && c !in s
    ensures c !in ReplaceDots(s)
  {
    if s != [] {
      ReplaceDotsAddsNothing(s[1..], c);
    }
  }

  lemma {:induction false} ReplaceDotsNoUpper(s: string)
    requires NoUpper(s)
    ensures NoUpper(ReplaceDots(s))
  {
    if s != [] {
      var h := SpellDot(s[0]);
      assert NoUpper(h) && NoUpper(s[1..]);
      ReplaceDotsNoUpper(s[1..]);
      NoUpperConcat(h, ReplaceDots(s[1..]));
    }
  }

  lemma {:induction false} ReplaceDotsNoWhitespace(s: string)
    requires NoWhitespace(s)
    ensures NoWhitespace(ReplaceDots(s))
  {
    if s != [] {
      var h := SpellDot(s[0]);
      assert NoWhitespace(h) && NoWhitespace(s[1..]);
      ReplaceDotsNoWhitespace(s[1..]);
      NoWhitespaceConcat(h, ReplaceDots(s[1..]));
    }
  }

  /** Text without a '.' is left as it is. */
  lemma {:induction false} ReplaceDotsWithoutDots(s: string)
    requires '.' !in s
    ensures ReplaceDots(s) == s
  {
    if s != [] {
      assert s[0] != '.' && '.' !in s[1..];
      ReplaceDotsWithoutDots(s[1..]);
      assert s == [s[0]] + s[1..];
    }
  }

  lemma {:induction false} RemoveWhitespaceAppend(a: string, b: string)
    ensures RemoveWhitespace(a + b) == RemoveWhitespace(a) + RemoveWhitespace(b)
  {
    if a == [] {
      assert a + b == b;
    } else {
      var head := if IsWhitespace(a[0]) then [] else [a[0]];
      assert (a + b)[0] == a[0] && (a + b)[1..] == a[1..] + b;
      assert RemoveWhitespace(a + b) == head + RemoveWhitespace(a[1..] + b);
      RemoveWhitespaceAppend(a[1..], b);
      assert RemoveWhitespace(a) == head + RemoveWhitespace(a[1..]);
    }
  }

  lemma {:induction false} ReplaceDotsAppend(a: string, b: string)
    ensures ReplaceDots(a + b) == ReplaceDots(a) + ReplaceDots(b)
  {
    if a == [] {
      assert a + b == b;
    } else {
      var h, t := SpellDot(a[0]), a[1..];
      calc {
        ReplaceDots(a + b);
        == { assert a + b == [a[0]] + (t + b); ReplaceDotsCons(a[0], t + b); }
        h + ReplaceDots(t + b);
        == { ReplaceDotsAppend(t, b); }
        h + (ReplaceDots(t) + ReplaceDots(b));
        ==
        (h + ReplaceDots(t)) + ReplaceDots(b);
        == { assert a == [a[0]] + t; ReplaceDotsCons(a[0], t); }
        ReplaceDots(a) + ReplaceDots(b);
      }
    }
  }

  lemma ReplaceDotsCons(c: char, t: string)
    ensures ReplaceDots([c] + t) == SpellDot(c) + ReplaceDots(t)
  {
    assert ([c] + t)[0] == c && ([c] + t)[1..] == t;
  }

  lemma ReplaceDots3(a: string, b: string, c: string)
    ensures ReplaceDots(a + b + c) == ReplaceDots(a) + ReplaceDots(b) + ReplaceDots(c)
  {
    ReplaceDotsAppend(a + b, c);
    ReplaceDotsAppend(a, b);
  }

  lemma RemoveWhitespace3(a: string, b: string, c: string)
    ensures RemoveWhitespace(a + b + c) == RemoveWhitespace(a) + RemoveWhitespace(b) + RemoveWhitespace(c)
  {
    RemoveWhitespaceAppend(a + b, c);
    RemoveWhitespaceAppend(a, b);
  }

  /** Dropping one trailing whitespace character does not change what `TrimEnd` yields. */
  lemma TrimEndDrop(a: string, c: char)
    requires IsWhitespace(c)
    ensures TrimEnd(a + [c]) == TrimEnd(a)
  {
    assert (a + [c])[..|a + [c]| - 1] == a;
  }

  /** `s.includes(sub)` */
  predicate Includes(s: string, sub: string)
    ensures Includes(s, sub) ==> |sub| <= |s|
  {
    sub <= s || (s != [] && Includes(s[1..], sub))
  }

  /** `sub` occurs in `s` starting at position `i`. */
  predicate OccursAt(s: string, sub: string, i: int) {
    0 <= i && i + |sub| <= |s| && s[i..i + |sub|] == sub
  }

  /** Where `includes` finds `sub`: the first position it occurs at. */
  function FirstOccurrence(s: string, sub: string): (i: nat)
    requires Includes(s, sub)
    ensures OccursAt(s, sub, i)
    ensures forall j :: 0 <= j < i ==> !OccursAt(s, sub, j)
  {
    if sub <= s then
      assert s[0..|sub|] == sub;
      0
    else
      var i := FirstOccurrence(s[1..], sub);
      assert s[i + 1..i + 1 + |sub|] == s[1..][i..i + |sub|];
      OccursLater(s, sub, i + 1);
      i + 1
  }

  /**
   * When `sub` is not a prefix of `s`, it occurs before `k` in `s` only if it
   * occurs before `k - 1` in `s[1..]`.
   */
  lemma OccursLater(s: string, sub: string, k: nat)
    requires s != [] && !(sub <= s) && 0 < k
    requires forall j :: 0 <= j < k - 1 ==> !OccursAt(s[1..], sub, j)
    ensures forall j :: 0 <= j < k ==> !OccursAt(s, sub, j)
  {
    forall j | 0 <= j < k
      ensures !OccursAt(s, sub, j)
    {
      if 0 < j && j + |sub| <= |s| {
        var here, there := s[j..j + |sub|], s[1..][j - 1..j - 1 + |sub|];
        assert |here| == |there|;
        forall t | 0 <= t < |here|
          ensures here[t] == there[t]
        {
          assert here[t] == s[j + t];
          assert there[t] == s[1..][j - 1 + t];
        }
        assert here == there;
        assert !OccursAt(s[1..], sub, j - 1);
      }
    }
  }

  /** An occurrence at any position makes `includes` hold. */
  lemma {:induction false} OccurrenceIncluded(s: string, sub: string, i: int)
    requires OccursAt(s, sub, i)
    ensures Includes(s, sub)
    decreases i
  {
    if i == 0 {
      assert sub == s[..|sub|];
    } else {
      assert s[1..][i - 1..i - 1 + |sub|] == s[i..i + |sub|];
      OccurrenceIncluded(s[1..], sub, i - 1);
    }
  }
}
