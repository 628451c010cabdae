/** ListSnapshots pages: tokens are decimal offsets into the list. */
module Pagination {
  import opened Basics

  const MaxInt := 0x7FFF_FFFF_FFFF_FFFF

  // ---------- decimal text ----------

  predicate IsDigit(c: char) { '0' <= c <= '9' }

  predicate AllDigits(s: string) { forall i :: 0 <= i < |s| ==> IsDigit(s[i]) }

  function DigitsOf(n: nat): (s: string)
    ensures s != "" && AllDigits(s)
  {
    var last := [(n % 10) as char + '0'];
    if n < 10 then last else DigitsOf(n / 10) + last
  }

  // strconv.Itoa
  function Itoa(n: int): string {
    if n < 0 then "-" + DigitsOf(-n) else DigitsOf(n)
  }

  function ValueOf(s: string): nat
    requires AllDigits(s)
  {
    if s == "" then 0 else 10 * ValueOf(s[..|s| - 1]) + (s[|s| - 1] - '0') as nat
  }

  // strconv.Atoi: an optional sign, at least one digit, and a value that fits 64 bits
  function Atoi(s: string): Result<int> {
    var signed := s != "" && (s[0] == '-' || s[0] == '+');
    var digits := if signed then s[1..] else s;
    if digits == "" || !AllDigits(digits) then Err
    else
      var n: int := ValueOf(digits);
      var v := if signed && s[0] == '-' then -n else n;
      if -MaxInt - 1 <= v <= MaxInt then Ok(v) else Err
  }

  lemma {:induction false} ValueOfDigits(n: nat)
    ensures ValueOf(DigitsOf(n)) == n
  {
    if n >= 10 {
      ValueOfDigits(n / 10);
      var s := DigitsOf(n);
      assert s[..|s| - 1] == DigitsOf(n / 10);
    }
  }

  /** Decimal text round-trips for every 64-bit integer. */
  lemma AtoiItoa(n: int)
    requires -MaxInt - 1 <= n <= MaxInt
    ensures Atoi(Itoa(n)) == Ok(n)
  {
    if n >= 0 {
      ValueOfDigits(n);
      assert IsDigit(DigitsOf(n)[0]);
    } else {
      ValueOfDigits(-n);
      assert Itoa(n)[1..] == DigitsOf(-n);
    }
  }

  // ---------- pages ----------

  datatype Page<T> = Page(entries: seq<T>, next: string)

  // the offset of a starting token, if it is valid for a list of this length
  function Offset(token: string, length: nat): Option<nat> {
    if token == "" then Some(0)
    else
      var n := Atoi(token);
      if n.Err? || n.value < 0 || n.value > length then None else Some(n.value)
  }

  function ListPage<T>(all: seq<T>, token: string, maxEntries: int): Result<Page<T>> {
    var start := Offset(token, |all|);
    if start.None? then Err
    else
      var rest := all[start.value..];
      if maxEntries > 0 && |rest| > maxEntries
      then Ok(Page(rest[..maxEntries], Itoa(start.value + maxEntries)))
      else Ok(Page(rest, ""))
  }

  // digits with an optional sign
  predicate IsNumeral(s: string) {
    var digits := if s != "" && s[0] in "+-" then s[1..] else s;
    digits != "" && AllDigits(digits)
  }

  function NumeralValue(s: string): int
    requires IsNumeral(s)
  {
    if s[0] == '-' then 0 - ValueOf(s[1..]) else if s[0] == '+' then ValueOf(s[1..]) else ValueOf(s)
  }

  lemma AtoiIs(s: string)
    ensures Atoi(s).Ok? <==> IsNumeral(s) && -MaxInt - 1 <= NumeralValue(s) <= MaxInt
    ensures Atoi(s).Ok? ==> Atoi(s).value == NumeralValue(s)
  {
  }

  lemma OffsetIs(token: string, length: nat)
    requires length <= MaxInt
    ensures Offset(token, length).None? <==>
            token != "" && (IsNumeral(token) ==> NumeralValue(token) < 0 || NumeralValue(token) > length)
    ensures Offset(token, length).Some? ==>
              Offset(token, length).value == if token == "" then 0 else NumeralValue(token)
  {
    AtoiIs(token);
  }

  /** A token is refused exactly when it is not empty and not a number from zero to the length of the list. */
  lemma RefusedTokens<T>(all: seq<T>, token: string, maxEntries: int)
    requires |all| <= MaxInt
    ensures ListPage(all, token, maxEntries).Err? <==>
            token != "" && (IsNumeral(token) ==> NumeralValue(token) < 0 || NumeralValue(token) > |all|)
    ensures ListPage(all, token, maxEntries).Ok? ==>
              var start := if token == "" then 0 else NumeralValue(token);
              var entries := ListPage(all, token, maxEntries).value.entries;
              entries == all[start..start + |entries|] &&
              |entries| == if maxEntries > 0 && |all| - start > maxEntries then maxEntries else |all| - start
  {
    OffsetIs(token, |all|);
  }

  lemma PageLeadsOn<T>(all: seq<T>, token: string, maxEntries: int)
    requires |all| <= MaxInt && ListPage(all, token, maxEntries).Ok?
    ensures var page, start := ListPage(all, token, maxEntries).value, Offset(token, |all|).value;
            if page.next == "" then page.entries == all[start..]
            else && Offset(page.next, |all|) == Some(start + |page.entries|)
                 && |page.entries| == maxEntries > 0
                 && all[start..] == page.entries + all[start + maxEntries..]
                 && start + maxEntries < |all|
  {
    var start := Offset(token, |all|).value;
    if maxEntries > 0 && |all| - start > maxEntries {
      AtoiItoa(start + maxEntries);
      assert all[start..][maxEntries..] == all[start + maxEntries..];
    }
  }

  // the pages a client sees that follows every token it is given
  ghost function Follow<T>(all: seq<T>, token: string, maxEntries: int): seq<seq<T>>
    requires |all| <= MaxInt && ListPage(all, token, maxEntries).Ok?
    decreases |all| - Offset(token, |all|).value
  {
    PageLeadsOn(all, token, maxEntries);
    var page := ListPage(all, token, maxEntries).value;
    [page.entries] + if page.next == "" then [] else Follow(all, page.next, maxEntries)
  }

  function Concat<T>(pages: seq<seq<T>>): seq<T> {
    if pages == [] then [] else pages[0] + Concat(pages[1..])
  }

  lemma {:induction false} FollowCovers<T>(all: seq<T>, token: string, maxEntries: int)
    requires |all| <= MaxInt && ListPage(all, token, maxEntries).Ok?
    ensures var pages, start := Follow(all, token, maxEntries), Offset(token, |all|).value;
            && Concat(pages) == all[start..]
            && (forall i :: 0 <= i < |pages| - 1 ==> |pages[i]| == maxEntries)
            && (maxEntries > 0 ==> |pages[|pages| - 1]| <= maxEntries)
            && (start < |all| ==> pages[|pages| - 1] != [])
    decreases |all| - Offset(token, |all|).value
  {
    PageLeadsOn(all, token, maxEntries);
    var page, pages := ListPage(all, token, maxEntries).value, Follow(all, token, maxEntries);
    if page.next == "" {
      assert Concat(pages[1..]) == [];
    } else {
      FollowCovers(all, page.next, maxEntries);
      assert pages[1..] == Follow(all, page.next, maxEntries);
      assert pages[|pages| - 1] == pages[1..][|pages| - 2];
    }
  }

  /**
   From the empty token, following next tokens ends, and the pages together are the list, in
   order, every entry once: full pages, then one that is not empty unless the list is.
   */
  lemma PaginationCoversExactly<T>(all: seq<T>, maxEntries: int)
    requires |all| <= MaxInt
    ensures var pages := Follow(all, "", maxEntries);
            && Concat(pages) == all
            && (maxEntries <= 0 ==> pages == [all])
            && (maxEntries > 0 ==> |pages| == if all == [] then 1 else (|all| + maxEntries - 1) / maxEntries)
  {
    FollowCovers(all, "", maxEntries);
    var pages := Follow(all, "", maxEntries);
    if maxEntries > 0 {
      ConcatLength(pages, maxEntries);
      var full, last := |pages| - 1, |pages[|pages| - 1]|;
      assert |all| == full * maxEntries + last;
      if all != [] { CeilingDivision(full, last, maxEntries); }
    }
  }

  lemma ProductAtLeast(a: int, b: nat)
    ensures a >= 1 ==> a * b >= b
    ensures a <= -1 ==> a * b <= 0 - b
  {
    if a >= 1 { assert a * b == b + (a - 1) * b; }
    if a <= -1 { assert a * b == (a + 1) * b - b; }
  }

  lemma CeilingDivision(full: nat, last: nat, size: nat)
    requires 0 < last <= size
    ensures (full * size + last + size - 1) / size == full + 1
  {
    var n := full * size + last + size - 1;
    assert n == (full + 1) * size + (last - 1);
    QuotientIs(n, full + 1, last - 1, size);
  }

  lemma QuotientIs(n: nat, q: nat, r: nat, d: nat)
    requires d > r && n == q * d + r
    ensures n / d == q
  {
    var e := n / d - q;
    assert n == n / d * d + n % d;
    assert e * d == r - n % d;
    ProductAtLeast(e, d);
  }

  lemma {:induction false} ConcatLength<T>(pages: seq<seq<T>>, size: nat)
    requires pages != [] && forall i :: 0 <= i < |pages| - 1 ==> |pages[i]| == size
    ensures |Concat(pages)| == (|pages| - 1) * size + |pages[|pages| - 1]|
  {
    if |pages| > 1 {
      ConcatLength(pages[1..], size);
      assert pages[1..][|pages| - 2] == pages[|pages| - 1];
      assert (|pages| - 1) * size == size + (|pages| - 2) * size;
    } else {
      assert Concat(pages[1..]) == [];
    }
  }
}
