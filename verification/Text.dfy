/** Splitting text at a delimiter, in the two ways the two programs do it, and decimal numbers. */
module Text {
  import opened Wrappers

  /** The position of the first c in s, or the length of s. */
  function Find(s: string, c: char): (i: nat)
    ensures i <= |s|
    ensures forall k :: 0 <= k < i ==> s[k] != c
    ensures i < |s| ==> s[i] == c
  {
    if s == "" || s[0] == c then 0 else 1 + Find(s[1..], c)
  }

  /** Successive `std::getline` reads: no piece after a final delimiter, none from an empty string. */
  function Getlines(s: string, c: char): seq<string>
    decreases |s|
  {
    if s == "" then []
    else
      var i := Find(s, c);
      [s[..i]] + if i == |s| then [] else Getlines(s[i + 1..], c)
  }

  /** Kotlin's `split`: every delimiter separates two pieces. */
  function Split(s: string, c: char): seq<string>
    decreases |s|
  {
    var i := Find(s, c);
    if i == |s| then [s] else [s[..i]] + Split(s[i + 1..], c)
  }

  /** Kotlin's `split` with a limit: at most that many pieces, the last one unsplit. */
  function SplitLimit(s: string, c: char, limit: nat): seq<string>
    requires limit > 0
    decreases limit
  {
    var i := Find(s, c);
    if limit == 1 || i == |s| then [s] else [s[..i]] + SplitLimit(s[i + 1..], c, limit - 1)
  }

  lemma SplitInTwo(s: string, c: char)
    ensures var i := Find(s, c);
            SplitLimit(s, c, 2) == if i == |s| then [s] else [s[..i], s[i + 1..]]
  {
    hide Find;
    var i := Find(s, c);
    if i < |s| {
      assert SplitLimit(s[i + 1..], c, 1) == [s[i + 1..]];
      assert SplitLimit(s, c, 2) == [s[..i]] + SplitLimit(s[i + 1..], c, 1);
    }
  }

  predicate Free(s: string, c: char) {
    c !in s
  }

  lemma FindAppend(a: string, c: char, b: string)
    requires Free(a, c)
    ensures Find(a + [c] + b, c) == |a| && Find(a, c) == |a|
    ensures (a + [c] + b)[..|a|] == a && (a + [c] + b)[|a| + 1..] == b
  {
    var s := a + [c] + b;
    assert s[|a|] == c && forall k :: 0 <= k < |a| ==> s[k] == a[k];
    assert forall k :: 0 <= k < |a| ==> a[k] in a;
  }

  lemma GetlinesCons(a: string, c: char, b: string)
    requires Free(a, c)
    ensures Getlines(a + [c] + b, c) == [a] + Getlines(b, c)
  {
    FindAppend(a, c, b);
  }

  lemma GetlinesLast(a: string, c: char)
    requires Free(a, c)
    ensures Getlines(a, c) == if a == "" then [] else [a]
  {
    FindAppend(a, c, "");
    assert a[..|a|] == a;
  }

  lemma SplitCons(a: string, c: char, b: string)
    requires Free(a, c)
    ensures Split(a + [c] + b, c) == [a] + Split(b, c)
    ensures Split(a, c) == [a]
  {
    FindAppend(a, c, b);
  }

  lemma {:induction false} GetlinesFree(s: string, c: char, k: int)
    requires 0 <= k < |Getlines(s, c)|
    ensures Free(Getlines(s, c)[k], c)
    ensures forall x :: x in Getlines(s, c)[k] ==> x in s
    decreases |s|
  {
    hide Find;
    var i := Find(s, c);
    if k == 0 {
      assert Getlines(s, c)[0] == s[..i];
    } else {
      GetlinesFree(s[i + 1..], c, k - 1);
      assert Getlines(s, c)[k] == Getlines(s[i + 1..], c)[k - 1];
      forall x | x in Getlines(s, c)[k] ensures x in s { assert x in s[i + 1..]; }
    }
  }

  /** The two ways of splitting differ only by one empty piece at the very end. */
  lemma {:induction false} SplitVsGetlines(s: string, c: char)
    ensures Split(s, c) == if s == "" || s[|s| - 1] == c then Getlines(s, c) + [""] else Getlines(s, c)
    decreases |s|
  {
    hide Find, Getlines, Split;
    var i := Find(s, c);
    if i < |s| {
      var a, b := s[..i], s[i + 1..];
      assert s == a + [c] + b;
      SplitVsGetlines(b, c);
      SplitCons(a, c, b);
      GetlinesCons(a, c, b);
      if b == "" {
        assert s[|s| - 1] == c;
      } else {
        assert b[|b| - 1] == s[|s| - 1];
        assert [a] + (Getlines(b, c) + [""]) == [a] + Getlines(b, c) + [""];
      }
    } else {
      SplitCons(s, c, "");
      GetlinesLast(s, c);
    }
  }

  lemma {:induction false} SplitFree(s: string, c: char, k: int)
    requires 0 <= k < |Split(s, c)|
    ensures Free(Split(s, c)[k], c)
    decreases |s|
  {
    var i := Find(s, c);
    if i < |s| && k > 0 {
      SplitFree(s[i + 1..], c, k - 1);
      assert Split(s, c)[k] == Split(s[i + 1..], c)[k - 1];
    }
  }

  /** The pieces with c between them. */
  function Join(xs: seq<string>, c: char): string
    requires xs != []
  {
    if |xs| == 1 then xs[0] else xs[0] + [c] + Join(xs[1..], c)
  }

  lemma {:induction false} SplitJoin(xs: seq<string>, c: char)
    requires xs != [] && forall k :: 0 <= k < |xs| ==> Free(xs[k], c)
    ensures Split(Join(xs, c), c) == xs
  {
    if |xs| == 1 {
      SplitCons(xs[0], c, "");
      assert xs == [xs[0]];
    } else {
      SplitJoin(xs[1..], c);
      SplitCons(xs[0], c, Join(xs[1..], c));
    }
  }

  lemma {:induction false} JoinSnoc(xs: seq<string>, x: string, c: char)
    requires xs != []
    ensures Join(xs + [x], c) == Join(xs, c) + [c] + x
  {
    if |xs| == 1 {
      assert (xs + [x])[1..] == [x];
    } else {
      JoinSnoc(xs[1..], x, c);
      assert (xs + [x])[1..] == xs[1..] + [x];
      assert xs[0] + [c] + (Join(xs[1..], c) + [c] + x) == xs[0] + [c] + Join(xs[1..], c) + [c] + x;
    }
  }

  // ---------------------------------------------------------------- decimal numbers

  function Digit(d: int): char
    requires 0 <= d < 10
  {
    ['0', '1', '2', '3', '4', '5', '6', '7', '8', '9'][d]
  }

  predicate IsDigit(c: char) {
    '0' <= c <= '9'
  }

  function DigitValue(c: char): int {
    c as int - '0' as int
  }

  /** `std::to_string` of a non-negative number. */
  function Decimal(n: nat): (s: string)
    ensures s != "" && forall k :: 0 <= k < |s| ==> IsDigit(s[k])
  {
    if n < 10 then [Digit(n)] else Decimal(n / 10) + [Digit(n % 10)]
  }

  function Value(s: string): int {
    if s == "" then 0 else 10 * Value(s[..|s| - 1]) + DigitValue(s[|s| - 1])
  }

  predicate AllDigits(s: string) {
    forall k :: 0 <= k < |s| ==> IsDigit(s[k])
  }

  /** `std::stoi` on text that starts with a digit; other text makes it throw. */
  function Stoi(s: string): Option<int> {
    var p := DigitPrefix(s);
    if p == "" then None else Some(Value(p))
  }

  function DigitPrefix(s: string): string {
    if s == "" || !IsDigit(s[0]) then "" else [s[0]] + DigitPrefix(s[1..])
  }

  lemma {:induction false} DigitPrefixAll(s: string)
    requires AllDigits(s)
    ensures DigitPrefix(s) == s
  {
    if s != "" { DigitPrefixAll(s[1..]); }
  }

  lemma {:induction false} ValueDecimal(n: nat)
    ensures Value(Decimal(n)) == n
  {
    if n >= 10 {
      ValueDecimal(n / 10);
      assert Decimal(n)[..|Decimal(n)| - 1] == Decimal(n / 10);
    } else {
      assert Decimal(n)[..0] == "";
    }
  }

  lemma StoiDecimal(n: nat)
    ensures Stoi(Decimal(n)) == Some(n)
  {
    DigitPrefixAll(Decimal(n));
    ValueDecimal(n);
  }

  /** Most significant digit first. */
  lemma DecimalOf1024()
    ensures Decimal(1024) == "1024" && Stoi("12ab") == Some(12) && Stoi("ab") == None
  {
    assert "12ab"[1..] == "2ab" && "2ab"[1..] == "ab";
    assert DigitPrefix("ab") == "";
    assert DigitPrefix("2ab") == "2";
    assert DigitPrefix("12ab") == "12";
    assert "12"[..1] == "1" && "1"[..0] == "";
  }
}
