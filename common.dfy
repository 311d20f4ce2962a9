/** Small shared vocabulary: an Option type, JavaScript's remainder operator,
    duplicate-freedom, and the first-occurrence order in which a JavaScript
    `Set` keeps the values added to it. */
module Common {

  datatype Option<T> = None | Some(value: T)

  function Min(a: int, b: int): int { if a <= b then a else b }

  function Max(a: int, b: int): int { if a >= b then a else b }

  /** JavaScript's `x % 12`: the quotient is truncated toward zero, so the
      remainder takes the sign of the dividend. */
  function JsRem12(x: int): (r: int)
    ensures -12 < r < 12
    ensures x >= 0 ==> 0 <= r
    ensures x <= 0 ==> r <= 0
    ensures (x - r) % 12 == 0
  {
    if x >= 0 then
      assert x - x % 12 == 12 * (x / 12);
      x % 12
    else
      assert x + (-x) % 12 == -12 * ((-x) / 12);
      -((-x) % 12)
  }

  predicate NoDuplicates<T(==)>(s: seq<T>)
  {
    forall i, j :: 0 <= i < j < |s| ==> s[i] != s[j]
  }

  /** The values of `s` in the order of their first occurrence: what a
      JavaScript `Set` holds after `s` has been added to it element by element. */
  function Dedup<T(==)>(s: seq<T>): (r: seq<T>)
    ensures |r| <= |s|
  {
    if s == [] then []
    else
      var d := Dedup(s[..|s| - 1]);
      var x := s[|s| - 1];
      if x in d then d else d + [x]
  }

  /** The set holds each value of `s` exactly once, and nothing else. */
  lemma {:induction false} DedupMembers<T>(s: seq<T>)
    ensures NoDuplicates(Dedup(s))
    ensures forall i :: 0 <= i < |Dedup(s)| ==> Dedup(s)[i] in s
    ensures forall i :: 0 <= i < |s| ==> s[i] in Dedup(s)
  {
    if s != [] {
      var t := s[..|s| - 1];
      DedupMembers(t);
      forall i | 0 <= i < |s| ensures s[i] in Dedup(s) {
        if i < |s| - 1 {
          assert s[i] == t[i];
        }
      }
    }
  }

  /** Adding more values to a `Set` never reorders what it already holds. */
  lemma {:induction false} DedupPrefix<T>(s: seq<T>, k: nat)
    requires k <= |s|
    ensures |Dedup(s[..k])| <= |Dedup(s)|
    ensures Dedup(s)[..|Dedup(s[..k])|] == Dedup(s[..k])
  {
    if k < |s| {
      var t := s[..|s| - 1];
      assert t[..k] == s[..k];
      DedupPrefix(t, k);
    } else {
      assert s[..k] == s;
    }
  }

  /** Adding one more value to a `Set`. */
  lemma DedupStep<T>(s: seq<T>, i: nat)
    requires i < |s|
    ensures Dedup(s[..i + 1]) == if s[i] in Dedup(s[..i]) then Dedup(s[..i]) else Dedup(s[..i]) + [s[i]]
  {
    assert s[..i + 1][..i] == s[..i];
  }

  /** Duplicate-freedom stated through multiplicities. */
  lemma {:induction false} NoDuplicatesCounts<T>(s: seq<T>)
    ensures NoDuplicates(s) <==> forall x :: multiset(s)[x] <= 1
  {
    if s != [] {
      var a, t := s[0], s[1..];
      assert s == [a] + t;
      NoDuplicatesCounts(t);
      if NoDuplicates(s) {
        assert NoDuplicates(t) by {
          forall i, j | 0 <= i < j < |t| ensures t[i] != t[j] {
            assert t[i] == s[i + 1] && t[j] == s[j + 1];
          }
        }
        assert a !in t;
      }
      if forall x :: multiset(s)[x] <= 1 {
        forall x ensures multiset(t)[x] <= 1 {
          assert multiset(s)[x] == multiset{a}[x] + multiset(t)[x];
        }
        assert multiset(s)[a] == 1 + multiset(t)[a];
        assert a !in multiset(t);
        forall i, j | 0 <= i < j < |s| ensures s[i] != s[j] {
          if i == 0 {
            assert s[j] == t[j - 1];
          } else {
            assert s[i] == t[i - 1] && s[j] == t[j - 1];
          }
        }
      }
    }
  }

  /** A rearrangement of a duplicate-free sequence is duplicate-free. */
  lemma PermutationKeepsNoDuplicates<T>(s: seq<T>, r: seq<T>)
    requires multiset(s) == multiset(r)
    requires NoDuplicates(s)
    ensures NoDuplicates(r)
  {
    NoDuplicatesCounts(s);
    NoDuplicatesCounts(r);
  }
}
