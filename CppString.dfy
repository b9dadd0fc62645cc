/**
 The parts of C++'s `std::string` and `<cctype>` that the log processor relies on:
 `find` for a character with its `npos` result and `size_t` positions, the substring
 search `find(sub) != npos`, and ASCII `toupper`.
 */
module CppString {

  /** `size_t` is an unsigned 64-bit integer: arithmetic on it wraps modulo 2^64. */
  const SizeModulus: nat := 0x1_0000_0000_0000_0000

  /** `std::string::npos`, the largest `size_t`, returned by `find` when nothing is found. */
  const NPos: nat := SizeModulus - 1

  /** A value of type `size_t`. */
  type SizeT = n: nat | n < SizeModulus

  /** A `std::string`: its length never reaches `npos` (`max_size()` is smaller). */
  type CString = s: string | |s| < NPos

  /** `p + 1` evaluated in `size_t`; `npos + 1` wraps around to 0. */
  function SizeSucc(p: SizeT): (r: SizeT)
    ensures r == (p + 1) % SizeModulus
    ensures p < NPos ==> r == p + 1
    ensures p == NPos ==> r == 0
  {
    if p + 1 == SizeModulus then 0 else p + 1
  }

  /** `s.find(c, pos)`: the first index at or after `pos` that holds `c`, or `npos`. */
  function Find(s: CString, c: char, pos: SizeT): (r: SizeT)
    decreases |s| - pos
  {
    if pos >= |s| then NPos
    else if s[pos] == c then pos
    else Find(s, c, pos + 1)
  }

  /**
   `Find` returns `npos` exactly when `c` does not occur from `pos` on, and
   otherwise the index of its first occurrence from `pos` on.
   */
  lemma {:induction false} FindSpec(s: CString, c: char, pos: SizeT)
    ensures Find(s, c, pos) == NPos <==> forall k :: pos <= k < |s| ==> s[k] != c
    ensures Find(s, c, pos) != NPos ==> pos <= Find(s, c, pos) < |s| && s[Find(s, c, pos)] == c
    ensures Find(s, c, pos) != NPos ==> forall k :: pos <= k < Find(s, c, pos) ==> s[k] != c
    decreases |s| - pos
  {
    if pos < |s| && s[pos] != c {
      FindSpec(s, c, pos + 1);
    }
  }

  /** Number of occurrences of `c` in `s` at index `pos` or later. */
  function CountFrom(s: string, c: char, pos: nat): (r: nat)
    decreases |s| - pos
  {
    if pos >= |s| then 0 else (if s[pos] == c then 1 else 0) + CountFrom(s, c, pos + 1)
  }

  /** Number of occurrences of `c` in `s`. */
  function Count(s: string, c: char): (r: nat)
  {
    CountFrom(s, c, 0)
  }

  /** Skipping a stretch without `c` does not change the count. */
  lemma {:induction false} CountSkip(s: string, c: char, pos: nat, j: nat)
    requires pos <= j <= |s|
    requires forall k :: pos <= k < j ==> s[k] != c
    ensures CountFrom(s, c, pos) == CountFrom(s, c, j)
    decreases j - pos
  {
    if pos < j {
      CountSkip(s, c, pos + 1, j);
    }
  }

  /**
   What `Find` says about the occurrences of `c` it skips: if it finds nothing there
   are none left, otherwise exactly one more than after the one it found.
   */
  lemma {:induction false} FindCount(s: CString, c: char, pos: SizeT)
    ensures Find(s, c, pos) == NPos ==> CountFrom(s, c, pos) == 0
    ensures Find(s, c, pos) != NPos ==>
              CountFrom(s, c, pos) == 1 + CountFrom(s, c, Find(s, c, pos) + 1)
    decreases |s| - pos
  {
    if pos < |s| && s[pos] != c {
      FindCount(s, c, pos + 1);
    }
  }

  /** `s.find(sub) != npos`: `sub` occurs somewhere in `s`. */
  function Contains(s: string, sub: string): (r: bool)
    decreases |s|
  {
    if |sub| <= |s| && s[..|sub|] == sub then true
    else if s == [] then false
    else Contains(s[1..], sub)
  }

  /** `sub` occurs in `s` starting at index `k`. */
  predicate OccursAt(s: string, sub: string, k: int)
  {
    0 <= k <= |s| - |sub| && s[k..k + |sub|] == sub
  }

  /** `Contains` is the substring relation: some window of `s` equals `sub`. */
  lemma {:induction false} ContainsIsOccurrence(s: string, sub: string)
    ensures Contains(s, sub) <==> exists k :: OccursAt(s, sub, k)
    decreases |s|
  {
    if |sub| <= |s| && s[..|sub|] == sub {
      assert OccursAt(s, sub, 0);
    } else if s == [] {
    } else {
      ContainsIsOccurrence(s[1..], sub);
      if exists k :: OccursAt(s, sub, k) {
        var k :| OccursAt(s, sub, k);
        assert k != 0;
        assert s[1..][k - 1..k - 1 + |sub|] == s[k..k + |sub|];
        assert OccursAt(s[1..], sub, k - 1);
      }
      if exists k :: OccursAt(s[1..], sub, k) {
        var k :| OccursAt(s[1..], sub, k);
        assert s[1..][k..k + |sub|] == s[k + 1..k + 1 + |sub|];
        assert OccursAt(s, sub, k + 1);
      }
    }
  }

  predicate IsLowerAscii(c: char)
  {
    'a' <= c <= 'z'
  }

  /** `::toupper` in the "C" locale: only ASCII a-z change. */
  function UpperChar(c: char): (r: char)
    ensures !IsLowerAscii(r)
    ensures !IsLowerAscii(c) ==> r == c
    ensures IsLowerAscii(c) ==> r as int == c as int - 32
  {
    if IsLowerAscii(c) then (c as int - 32) as char else c
  }

  /** `std::transform(s.begin(), s.end(), s.begin(), ::toupper)` as a value. */
  function ToUpper(s: string): (r: string)
  {
    seq(|s|, i requires 0 <= i < |s| => UpperChar(s[i]))
  }

  /** Upper-casing twice is upper-casing once. */
  lemma ToUpperIdempotent(s: string)
    ensures ToUpper(ToUpper(s)) == ToUpper(s)
  {
    var u := ToUpper(s);
    assert forall i :: 0 <= i < |u| ==> UpperChar(u[i]) == u[i];
  }

  /** An upper-cased string holds no ASCII lower-case letter. */
  lemma ToUpperHasNoLower(s: string)
    ensures forall k :: 0 <= k < |ToUpper(s)| ==> !IsLowerAscii(ToUpper(s)[k])
  {
  }

  /**
   `std::transform` with `::toupper` over a character buffer, in place.
   */
  method UpperInPlace(a: array<char>)
    modifies a
    ensures a[..] == ToUpper(old(a[..]))
  {
    var i := 0;
    while i < a.Length
      invariant 0 <= i <= a.Length
      invariant forall k :: 0 <= k < i ==> a[k] == UpperChar(old(a[k]))
      invariant forall k :: i <= k < a.Length ==> a[k] == old(a[k])
    {
      a[i] := UpperChar(a[i]);
      i := i + 1;
    }
  }
}
