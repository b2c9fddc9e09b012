/** Splitting, joining, trimming and decimal text, as Go's `strings` and
    `strconv` do them. The parser, the ingestor and the storage all rest on
    the laws of `Split` proved here. */
module Text {
  import opened Wrappers

  /** `strings.Split`: cut at the leftmost, non-overlapping occurrences of `sep`. */
  function Split(s: string, sep: string): (pieces: seq<string>)
    requires sep != ""
    ensures |pieces| >= 1
    decreases |s|
  {
    if |s| < |sep| then [s]
    else if sep <= s then [""] + Split(s[|sep|..], sep)
    else Prepend(s[0], Split(s[1..], sep))
  }

  function Prepend(c: char, pieces: seq<string>): (longer: seq<string>)
    requires |pieces| >= 1
    ensures |longer| == |pieces|
  {
    [[c] + pieces[0]] + pieces[1..]
  }

  function Join(pieces: seq<string>, sep: string): string
    requires |pieces| >= 1
  {
    if |pieces| == 1 then pieces[0] else pieces[0] + sep + Join(pieces[1..], sep)
  }

  ghost predicate OccursAt(s: string, sep: string, i: int) {
    0 <= i <= |s| - |sep| && s[i..i + |sep|] == sep
  }

  ghost predicate Contains(s: string, sep: string)
    decreases |s|
  {
    |s| >= |sep| && (sep <= s || (s != "" && Contains(s[1..], sep)))
  }

  lemma OccursInTail(s: string, sep: string, i: int)
    requires OccursAt(s, sep, i) && i > 0
    ensures OccursAt(s[1..], sep, i - 1)
  {
  }

  lemma OccursInWhole(s: string, sep: string, i: int)
    requires s != "" && OccursAt(s[1..], sep, i)
    ensures OccursAt(s, sep, i + 1)
  {
  }

  lemma {:induction false} ContainsMeansOccurs(s: string, sep: string)
    requires sep != ""
    ensures Contains(s, sep) <==> exists i :: OccursAt(s, sep, i)
    decreases |s|
  {
    if |s| >= |sep| {
      ContainsMeansOccurs(s[1..], sep);
      if sep <= s {
        assert OccursAt(s, sep, 0);
      } else if Contains(s[1..], sep) {
        var i :| OccursAt(s[1..], sep, i);
        OccursInWhole(s, sep, i);
      }
      forall i | OccursAt(s, sep, i) ensures Contains(s, sep) {
        if i > 0 {
          OccursInTail(s, sep, i);
        }
      }
    }
  }

  /** `sep` can neither occur in `piece` nor begin in it and end in the separator
      that follows it. */
  ghost predicate Cuttable(piece: string, sep: string)
    requires sep != ""
  {
    !Contains(piece + sep[..|sep| - 1], sep)
  }

  function Last<T>(s: seq<T>): T
    requires |s| >= 1
  {
    s[|s| - 1]
  }

  function Front<T>(s: seq<T>): seq<T>
    requires |s| >= 1
  {
    s[..|s| - 1]
  }

  lemma UncutTail(s: string, sep: string)
    requires s != "" && !Contains(s, sep)
    ensures !Contains(s[1..], sep) && !(sep <= s)
  {
  }

  lemma {:induction false} JoinSplit(s: string, sep: string)
    requires sep != ""
    ensures Join(Split(s, sep), sep) == s
    decreases |s|
  {
    if |s| < |sep| {
    } else if sep <= s {
      JoinSplit(s[|sep|..], sep);
      JoinCons("", Split(s[|sep|..], sep), sep);
      assert s == "" + sep + s[|sep|..];
    } else {
      JoinSplit(s[1..], sep);
      JoinPrepend(s[0], Split(s[1..], sep), sep);
      assert s == [s[0]] + s[1..];
    }
  }

  lemma JoinCons(first: string, pieces: seq<string>, sep: string)
    requires |pieces| >= 1
    ensures Join([first] + pieces, sep) == first + sep + Join(pieces, sep)
  {
    assert ([first] + pieces)[1..] == pieces;
  }

  lemma JoinPrepend(c: char, pieces: seq<string>, sep: string)
    requires |pieces| >= 1
    ensures Join(Prepend(c, pieces), sep) == [c] + Join(pieces, sep)
  {
    assert Prepend(c, pieces)[1..] == pieces[1..];
    if |pieces| > 1 {
      Associates([c], pieces[0], sep, Join(pieces[1..], sep));
    }
  }

  lemma Associates(a: string, b: string, c: string, d: string)
    ensures (a + b) + c + d == a + (b + c + d)
  {
  }

  lemma {:induction false} SplitPiecesFree(s: string, sep: string)
    requires sep != ""
    ensures forall i :: 0 <= i < |Split(s, sep)| ==> !Contains(Split(s, sep)[i], sep)
    decreases |s|
  {
    if |s| < |sep| {
    } else if sep <= s {
      SplitPiecesFree(s[|sep|..], sep);
      assert !Contains("", sep);
    } else {
      SplitPiecesFree(s[1..], sep);
      JoinSplit(s[1..], sep);
      var rest := Split(s[1..], sep);
      var head := [s[0]] + rest[0];
      assert rest[0] <= s[1..];
      assert head <= s;
      assert head[1..] == rest[0];
      forall i | 0 <= i < |Split(s, sep)| ensures !Contains(Split(s, sep)[i], sep) {
        if i > 0 {
          assert Split(s, sep)[i] == rest[i];
        }
      }
    }
  }

  lemma {:induction false} SplitUncut(s: string, sep: string)
    requires sep != "" && !Contains(s, sep)
    ensures Split(s, sep) == [s]
    decreases |s|
  {
    if |s| < |sep| {
    } else {
      SplitUncut(s[1..], sep);
      assert [s[0]] + s[1..] == s;
    }
  }

  /** Splitting can be resumed: only the last piece can still change when more
      text arrives. This is what makes incremental framing agree with framing
      the whole stream. */
  lemma {:induction false} SplitResumes(a: string, b: string, sep: string)
    requires sep != ""
    ensures Split(a + b, sep) == Front(Split(a, sep)) + Split(Last(Split(a, sep)) + b, sep)
    decreases |a|
  {
    if |a| < |sep| {
    } else if sep <= a {
      SplitResumes(a[|sep|..], b, sep);
      assert (a + b)[|sep|..] == a[|sep|..] + b;
      assert sep <= a + b;
      ConsFront("", Split(a[|sep|..], sep), Split(Last(Split(a[|sep|..], sep)) + b, sep));
    } else {
      SplitResumes(a[1..], b, sep);
      SplitResumesStep(a, b, sep);
    }
  }

  lemma SplitResumesStep(a: string, b: string, sep: string)
    requires sep != "" && |a| >= |sep| && !(sep <= a)
    requires Split(a[1..] + b, sep) == Front(Split(a[1..], sep)) + Split(Last(Split(a[1..], sep)) + b, sep)
    ensures Split(a + b, sep) == Front(Split(a, sep)) + Split(Last(Split(a, sep)) + b, sep)
  {
    var rest := Split(a[1..], sep);
    if |rest| == 1 {
      JoinSplit(a[1..], sep);
      UncutHead(a, rest, sep);
      assert Front([a]) + Split(a + b, sep) == Split(a + b, sep);
    } else {
      SplitPrepends(a, b, sep, rest, Split(Last(rest) + b, sep));
    }
  }

  lemma UncutHead(s: string, rest: seq<string>, sep: string)
    requires sep != "" && |s| >= |sep| && !(sep <= s)
    requires rest == Split(s[1..], sep) && |rest| == 1 && rest[0] == s[1..]
    ensures Split(s, sep) == [s]
  {
    assert [s[0]] + s[1..] == s;
  }

  lemma SplitPrepends(a: string, b: string, sep: string, rest: seq<string>, more: seq<string>)
    requires sep != "" && |a| >= |sep| && !(sep <= a)
    requires rest == Split(a[1..], sep) && |rest| > 1 && Split(a[1..] + b, sep) == Front(rest) + more
    ensures Split(a + b, sep) == Front(Split(a, sep)) + more
    ensures Last(Split(a, sep)) == Last(rest)
  {
    assert (a + b)[1..] == a[1..] + b;
    assert (a + b)[..|sep|] == a[..|sep|];
    SplitHead(a, sep);
    SplitHead(a + b, sep);
    hide Split;
    PrependFront(a[0], rest, more);
  }

  lemma SplitHead(s: string, sep: string)
    requires sep != "" && |s| >= |sep| && !(sep <= s)
    ensures Split(s, sep) == Prepend(s[0], Split(s[1..], sep))
  {
  }

  lemma ConsFront(first: string, pieces: seq<string>, more: seq<string>)
    requires |pieces| >= 1
    ensures [first] + (Front(pieces) + more) == Front([first] + pieces) + more
    ensures Last([first] + pieces) == Last(pieces)
  {
  }

  lemma PrependFront(c: char, pieces: seq<string>, more: seq<string>)
    requires |pieces| > 1
    ensures Prepend(c, Front(pieces) + more) == Front(Prepend(c, pieces)) + more
    ensures Last(Prepend(c, pieces)) == Last(pieces)
  {
  }

  lemma {:induction false} SplitFirst(a: string, b: string, sep: string)
    requires sep != "" && Cuttable(a, sep)
    ensures Split(a + sep + b, sep) == [a] + Split(b, sep)
    decreases |a|
  {
    if a == "" {
      assert ("" + sep + b)[|sep|..] == b;
    } else {
      GuardedHead(a, b, sep);
      SplitFirst(a[1..], b, sep);
      SplitHead(a + sep + b, sep);
      hide Split, Cuttable;
      assert [a[0]] + a[1..] == a;
    }
  }

  /** A cuttable piece does not begin with the separator, and its tail is cuttable. */
  lemma GuardedHead(a: string, b: string, sep: string)
    requires sep != "" && a != "" && Cuttable(a, sep)
    ensures !(sep <= a + sep + b) && Cuttable(a[1..], sep)
    ensures (a + sep + b)[1..] == a[1..] + sep + b && (a + sep + b)[0] == a[0]
  {
    var guard := a + sep[..|sep| - 1];
    assert (a + sep + b)[..|sep|] == guard[..|sep|];
    assert guard[1..] == a[1..] + sep[..|sep| - 1];
  }

  lemma {:induction false} ContainsPrefix(s: string, t: string, sep: string)
    requires Contains(s, sep)
    ensures Contains(s + t, sep)
    decreases |s|
  {
    if !(sep <= s) {
      ContainsPrefix(s[1..], t, sep);
      assert (s + t)[1..] == s[1..] + t;
    }
  }

  lemma {:induction false} SplitJoin(pieces: seq<string>, sep: string)
    requires sep != "" && |pieces| >= 1
    requires forall i :: 0 <= i < |pieces| ==> Cuttable(pieces[i], sep)
    ensures Split(Join(pieces, sep), sep) == pieces
  {
    if |pieces| == 1 {
      if Contains(pieces[0], sep) {
        ContainsPrefix(pieces[0], sep[..|sep| - 1], sep);
      }
      SplitUncut(pieces[0], sep);
    } else {
      SplitJoin(pieces[1..], sep);
      SplitFirst(pieces[0], Join(pieces[1..], sep), sep);
    }
  }

  /** For a one-character separator, being cuttable is just not holding it. */
  lemma {:induction false} CuttableByChar(piece: string, c: char)
    ensures Cuttable(piece, [c]) <==> c !in piece
  {
    assert piece + [c][..0] == piece;
    if piece == "" {
    } else {
      CuttableByChar(piece[1..], c);
      assert piece[1..] + [c][..0] == piece[1..];
      assert [c] <= piece <==> piece[0] == c;
    }
  }

  // ---- strings.TrimSpace, over the ASCII white space

  predicate IsSpace(c: char) {
    c == ' ' || '\t' <= c <= '\r'
  }

  function TrimLeft(s: string): string {
    if s != "" && IsSpace(s[0]) then TrimLeft(s[1..]) else s
  }

  function TrimRight(s: string): string {
    if s != "" && IsSpace(Last(s)) then TrimRight(Front(s)) else s
  }

  function TrimSpace(s: string): string {
    TrimRight(TrimLeft(s))
  }

  /** The white space of ASCII. */
  predicate Blank(c: char) {
    c == ' ' || c == '\t' || c == '\n' || c == '\U{0b}' || c == '\U{0c}' || c == '\r'
  }

  lemma {:induction false} TrimLeftIs(s: string) returns (i: nat)
    ensures i <= |s| && TrimLeft(s) == s[i..]
    ensures forall k :: 0 <= k < i ==> Blank(s[k])
    ensures i < |s| ==> !Blank(s[i])
  {
    if s == "" || !IsSpace(s[0]) {
      i := 0;
    } else {
      var j := TrimLeftIs(s[1..]);
      i := j + 1;
      assert forall k :: 0 < k < i ==> s[k] == s[1..][k - 1];
    }
  }

  lemma {:induction false} TrimRightIs(s: string) returns (j: nat)
    ensures j <= |s| && TrimRight(s) == s[..j]
    ensures forall k :: j <= k < |s| ==> Blank(s[k])
    ensures j > 0 ==> !Blank(s[j - 1])
  {
    if s == "" || !IsSpace(Last(s)) {
      j := |s|;
    } else {
      j := TrimRightIs(Front(s));
    }
  }

  /** Trimming cuts exactly the white space at both ends. */
  lemma TrimSpaceIs(s: string) returns (i: nat, j: nat)
    ensures i <= j <= |s| && TrimSpace(s) == s[i..j]
    ensures forall k :: 0 <= k < i || j <= k < |s| ==>
              s[k] == ' ' || s[k] == '\t' || s[k] == '\n' || s[k] == '\U{0b}' || s[k] == '\U{0c}' || s[k] == '\r'
    ensures i < j ==> !Blank(s[i]) && !Blank(s[j - 1])
  {
    i := TrimLeftIs(s);
    var k := TrimRightIs(s[i..]);
    j := i + k;
    assert s[i..][..k] == s[i..j];
    assert forall n :: j <= n < |s| ==> s[n] == s[i..][n - i];
  }

  ghost predicate Cut(s: string, i: int, j: int) {
    && 0 <= i <= j <= |s|
    && (forall k :: 0 <= k < |s| && !(i <= k < j) ==> Blank(s[k]))
    && (i < j ==> !Blank(s[i]) && !Blank(s[j - 1]))
  }

  lemma CutUnique(s: string, a: int, b: int, i: int, j: int)
    requires Cut(s, a, b) && Cut(s, i, j) && a < b
    ensures i == a && j == b
  {
    assert i <= a < j && i <= b - 1 < j;
    assert a <= i < b && a <= j - 1 < b;
  }

  /** Text padded with white space is trimmed back to itself. */
  lemma TrimsPadding(left: string, s: string, right: string)
    requires forall c :: c in left || c in right ==> Blank(c)
    requires s != "" && !Blank(s[0]) && !Blank(Last(s))
    ensures TrimSpace(left + s + right) == s
  {
    var whole := left + s + right;
    var i, j := TrimSpaceIs(whole);
    PaddedCut(left, s, right);
    CutUnique(whole, |left|, |left| + |s|, i, j);
    assert whole[|left|..|left| + |s|] == s;
  }

  /** Trimming finds the only cut there is. */
  lemma CutTrims(s: string, a: int, b: int)
    requires Cut(s, a, b)
    ensures TrimSpace(s) == s[a..b]
  {
    var i, j := TrimSpaceIs(s);
    if a < b {
      CutUnique(s, a, b, i, j);
    } else {
      assert forall k :: 0 <= k < |s| ==> Blank(s[k]);
    }
  }

  lemma PaddedCut(left: string, s: string, right: string)
    requires forall c :: c in left || c in right ==> Blank(c)
    requires s != "" && !Blank(s[0]) && !Blank(Last(s))
    ensures Cut(left + s + right, |left|, |left| + |s|)
  {
    var whole := left + s + right;
    forall k | 0 <= k < |whole| && !(|left| <= k < |left| + |s|) ensures Blank(whole[k]) {
      if k < |left| {
        assert whole[k] == left[k] && left[k] in left;
      } else {
        assert whole[k] == right[k - |left| - |s|] && right[k - |left| - |s|] in right;
      }
    }
  }

  lemma {:induction false} JoinEnds(pieces: seq<string>, sep: string)
    requires |pieces| >= 1
    ensures pieces[0] <= Join(pieces, sep)
    ensures Last(pieces) != "" ==> Join(pieces, sep) != "" && Last(Join(pieces, sep)) == Last(Last(pieces))
  {
    if |pieces| > 1 {
      JoinEnds(pieces[1..], sep);
      assert Last(pieces[1..]) == Last(pieces);
    }
  }

  // ---- strconv.Atoi and the decimal verbs of fmt

  const INT_MIN: int := -0x8000_0000_0000_0000
  const INT_MAX: int := 0x7FFF_FFFF_FFFF_FFFF

  predicate IsDigit(c: char) {
    '0' <= c <= '9'
  }

  predicate AllDigits(s: string) {
    forall i :: 0 <= i < |s| ==> IsDigit(s[i])
  }

  function DigitValue(c: char): nat
    requires IsDigit(c)
  {
    c as int - '0' as int
  }

  function DigitsValue(s: string): nat
    requires AllDigits(s)
  {
    if s == "" then 0
    else
      assert IsDigit(Last(s));
      10 * DigitsValue(Front(s)) + DigitValue(Last(s))
  }

  function Signed(negative: bool, magnitude: nat): int {
    if negative then 0 - magnitude else magnitude
  }

  /** An optional sign, at least one digit, nothing else, and a value that fits 64 bits. */
  function Atoi(s: string): Option<int> {
    var signed := s != "" && (s[0] == '-' || s[0] == '+');
    var digits := if signed then s[1..] else s;
    if digits == "" || !AllDigits(digits) then None
    else
      var n := Signed(signed && s[0] == '-', DigitsValue(digits));
      if INT_MIN <= n <= INT_MAX then Some(n) else None
  }

  /** Exactly which texts are integers: an optional sign, at least one decimal digit, nothing
      else, and a value of 64 bits. */
  lemma AtoiExactly(s: string)
    ensures var signed := s != "" && (s[0] == '-' || s[0] == '+');
            var digits := if signed then s[1..] else s;
            var numeral := digits != "" && forall i :: 0 <= i < |digits| ==> '0' <= digits[i] <= '9';
            && (Atoi(s).Some? ==> numeral)
            && (numeral ==>
                  && AllDigits(digits)
                  && var n := if s[0] == '-' then 0 - DigitsValue(digits) else DigitsValue(digits);
                     Atoi(s) == if -9223372036854775808 <= n <= 9223372036854775807 then Some(n) else None)
  {
  }

  function Digit(d: nat): char
    requires d < 10
  {
    ('0' as int + d) as char
  }

  function Digits(n: nat): (s: string)
    ensures s != "" && AllDigits(s)
    ensures DigitsValue(s) == n
  {
    if n < 10 then [Digit(n)] else Digits(n / 10) + [Digit(n % 10)]
  }

  function Zeros(n: nat): (s: string)
    ensures |s| == n && AllDigits(s)
  {
    if n == 0 then "" else Zeros(n - 1) + "0"
  }

  /** `%0<width>d`: the sign counts towards the width. Width 0 is plain `%d`. */
  function Padded(n: int, width: nat): string {
    var sign := if n < 0 then "-" else "";
    var digits := Digits(if n < 0 then -n else n);
    sign + Zeros(if width > |sign| + |digits| then width - |sign| - |digits| else 0) + digits
  }

  /** Decimal text without leading zeros. */
  lemma {:induction false} DigitsMinimal(n: nat)
    ensures n > 0 ==> Digits(n)[0] != '0'
    ensures n == 0 ==> Digits(n) == "0"
  {
    if n < 10 {
    } else {
      DigitsMinimal(n / 10);
    }
  }

  lemma {:induction false} ZerosAre(n: nat)
    ensures forall i :: 0 <= i < n ==> Zeros(n)[i] == '0'
  {
    if n == 0 {
    } else {
      ZerosAre(n - 1);
    }
  }

  /** The shape of `%0<width>d`: a minus sign for negative numbers, then zeros up to the width
      and no further, then the number without leading zeros. */
  lemma PaddedExactly(n: int, width: nat)
    ensures var digits := Digits(if n < 0 then -n else n);
            var sign := if n < 0 then 1 else 0;
            var s := Padded(n, width);
            && |s| == (if width > sign + |digits| then width else sign + |digits|)
            && (n < 0 ==> s[0] == '-')
            && (forall i :: sign <= i < |s| - |digits| ==> s[i] == '0')
            && s[|s| - |digits|..] == digits
            && (n != 0 ==> digits[0] != '0')
  {
    var digits := Digits(if n < 0 then -n else n);
    var k := PaddedIs(n, width, digits);
    ZerosAre(k);
    DigitsMinimal(if n < 0 then -n else n);
  }

  lemma {:induction false} LeadingZeros(k: nat, digits: string)
    requires AllDigits(digits)
    ensures AllDigits(Zeros(k) + digits)
    ensures DigitsValue(Zeros(k) + digits) == DigitsValue(digits)
    decreases |digits|, k
  {
    if digits == "" {
      assert Zeros(k) + digits == Zeros(k);
      if k > 0 {
        LeadingZeros(k - 1, "");
        assert Zeros(k - 1) + "" == Zeros(k - 1);
      }
    } else {
      var s := Zeros(k) + digits;
      LeadingZeros(k, Front(digits));
      assert Front(s) == Zeros(k) + Front(digits);
    }
  }

  /** Reading back what was printed, at any width: no 64-bit integer is lost. */
  lemma AtoiPadded(n: int, width: nat)
    requires INT_MIN <= n <= INT_MAX
    ensures Atoi(Padded(n, width)) == Some(n)
    ensures ',' !in Padded(n, width)
  {
    var digits := Digits(if n < 0 then -n else n);
    var k := PaddedIs(n, width, digits);
    LeadingZeros(k, digits);
    PaddedAtoi(n, width, Zeros(k) + digits);
  }

  lemma PaddedIs(n: int, width: nat, digits: string) returns (k: nat)
    requires digits == Digits(if n < 0 then -n else n)
    ensures Padded(n, width) == (if n < 0 then "-" else "") + (Zeros(k) + digits)
  {
    var sign := if n < 0 then "-" else "";
    k := if width > |sign| + |digits| then width - |sign| - |digits| else 0;
    assert sign + Zeros(k) + digits == sign + (Zeros(k) + digits);
  }

  lemma PaddedAtoi(n: int, width: nat, body: string)
    requires INT_MIN <= n <= INT_MAX && body != "" && AllDigits(body)
    requires Padded(n, width) == (if n < 0 then "-" else "") + body
    requires DigitsValue(body) == if n < 0 then -n else n
    ensures Atoi(Padded(n, width)) == Some(n)
    ensures ',' !in Padded(n, width)
  {
    AtoiSigned(n < 0, body);
    assert forall c :: c in body ==> IsDigit(c);
  }

  lemma AtoiSigned(negative: bool, body: string)
    requires body != "" && AllDigits(body)
    requires INT_MIN <= Signed(negative, DigitsValue(body)) <= INT_MAX
    ensures Atoi((if negative then "-" else "") + body) == Some(Signed(negative, DigitsValue(body)))
  {
    if negative {
      AtoiNegative("-" + body, body);
    } else {
      assert "" + body == body;
      AtoiUnsigned(body);
    }
  }

  lemma AtoiNegative(s: string, body: string)
    requires s == "-" + body && body != "" && AllDigits(body)
    requires INT_MIN <= Signed(true, DigitsValue(body)) <= INT_MAX
    ensures Atoi(s) == Some(Signed(true, DigitsValue(body)))
  {
    assert s[0] == '-' && s[1..] == body;
    hide DigitsValue;
  }

  lemma AtoiUnsigned(body: string)
    requires body != "" && AllDigits(body)
    requires INT_MIN <= Signed(false, DigitsValue(body)) <= INT_MAX
    ensures Atoi(body) == Some(Signed(false, DigitsValue(body)))
  {
    assert IsDigit(body[0]);
    hide DigitsValue;
  }

  /** `s` is `n` in decimal with zeros in front. */
  ghost predicate Renders(s: string, n: nat) {
    |Digits(n)| <= |s| && Zeros(|s| - |Digits(n)|) + Digits(n) == s
  }

  /** Decimal text of a given number of columns is unique: it is its own value, zero-padded. */
  lemma {:induction false} DigitsOfValue(s: string)
    requires s != "" && AllDigits(s)
    ensures Renders(s, DigitsValue(s))
  {
    if |s| == 1 {
      OneDigit(s, s[0]);
    } else {
      var front, d := Front(s), DigitValue(Last(s));
      LastDigit(s, front, d);
      DigitsOfValue(front);
      MoreDigits(front, DigitsValue(front), d, s, DigitsValue(s));
    }
  }

  lemma OneDigit(s: string, c: char)
    requires s == [c] && IsDigit(c)
    ensures AllDigits(s) && Renders(s, DigitsValue(s))
  {
    assert Front(s) == "" && Last(s) == c;
    assert DigitsValue("") == 0;
    assert DigitsValue(s) == DigitValue(c);
    DigitOfValue(c);
    assert Digits(DigitValue(c)) == [Digit(DigitValue(c))] == s;
    assert Zeros(0) + s == s;
  }

  lemma DigitOfValue(c: char)
    requires IsDigit(c)
    ensures DigitValue(c) < 10 && Digit(DigitValue(c)) == c
  {
  }

  lemma LastDigit(s: string, front: string, d: nat)
    requires s != "" && AllDigits(s) && front == Front(s) && IsDigit(Last(s)) && d == DigitValue(Last(s))
    ensures d < 10 && s == front + [Digit(d)] && |s| == |front| + 1
    ensures DigitsValue(s) == 10 * DigitsValue(front) + d
  {
  }

  lemma MoreDigits(front: string, m: nat, d: nat, s: string, n: nat)
    requires front != "" && Renders(front, m)
    requires d < 10 && s == front + [Digit(d)] && n == 10 * m + d
    ensures Renders(s, n)
  {
    assert n / 10 == m && n % 10 == d;
    if m == 0 {
      assert Zeros(|front|) == Zeros(|front| - 1) + "0" == front;
    } else {
      var zeros := Zeros(|front| - |Digits(m)|);
      assert Digits(n) == Digits(m) + [Digit(d)];
      assert zeros + (Digits(m) + [Digit(d)]) == (zeros + Digits(m)) + [Digit(d)];
    }
  }

  function Power10(n: nat): nat {
    if n == 0 then 1 else 10 * Power10(n - 1)
  }

  lemma {:induction false} DigitsBounded(s: string)
    requires AllDigits(s)
    ensures DigitsValue(s) < Power10(|s|)
  {
    if s == "" {
    } else {
      DigitsBounded(Front(s));
    }
  }
}
