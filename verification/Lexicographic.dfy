/** Code-point order on strings, as Python's `sorted` and `<` use it. */
module Lexicographic {

  predicate Less(a: string, b: string) {
    if b == "" then false
    else if a == "" then true
    else a[0] < b[0] || (a[0] == b[0] && Less(a[1..], b[1..]))
  }

  /** The texts part at some place, where the smaller one has ended or has the
      smaller character. */
  ghost predicate PartsAt(a: string, b: string, k: nat) {
    k <= |a| && k < |b| && a[..k] == b[..k] && (k < |a| ==> a[k] < b[k])
  }

  lemma {:induction false} LessMeans(a: string, b: string)
    ensures Less(a, b) <==> exists k :: 0 <= k <= |a| && PartsAt(a, b, k)
  {
    if a == "" || b == "" || a[0] != b[0] {
      if Less(a, b) { assert PartsAt(a, b, 0); }
      forall k | 0 <= k <= |a| ensures PartsAt(a, b, k) ==> k == 0 { PartsAtOnce(a, b, k); }
    } else {
      LessMeans(a[1..], b[1..]);
      forall k | 0 <= k < |a| ensures PartsAt(a, b, k + 1) <==> PartsAt(a[1..], b[1..], k) {
        PartsLater(a, b, k);
      }
      if k :| 0 <= k <= |a[1..]| && PartsAt(a[1..], b[1..], k) { assert PartsAt(a, b, k + 1); }
      forall k | 0 <= k <= |a| && PartsAt(a, b, k) ensures Less(a, b) {
        if k > 0 { assert PartsAt(a[1..], b[1..], k - 1); }
      }
    }
  }

  lemma PartsAtOnce(a: string, b: string, k: nat)
    requires a == "" || b == "" || a[0] != b[0]
    ensures PartsAt(a, b, k) ==> k == 0
  {
    if 0 < k <= |a| && k < |b| { assert a[..k][0] == a[0] && b[..k][0] == b[0]; }
  }

  lemma PartsLater(a: string, b: string, k: nat)
    requires a != "" && b != "" && a[0] == b[0] && k < |a|
    ensures PartsAt(a, b, k + 1) <==> PartsAt(a[1..], b[1..], k)
  {
    if k + 1 <= |b| {
      assert a[..k + 1] == [a[0]] + a[1..][..k] && b[..k + 1] == [b[0]] + b[1..][..k];
      assert a[1..][..k] == a[..k + 1][1..] && b[1..][..k] == b[..k + 1][1..];
    }
  }

  lemma {:induction false} Irreflexive(a: string)
    ensures !Less(a, a)
  {
    if a != "" { Irreflexive(a[1..]); }
  }

  lemma {:induction false} Transitive(a: string, b: string, c: string)
    requires Less(a, b) && Less(b, c)
    ensures Less(a, c)
  {
    if a != "" && a[0] == b[0] == c[0] { Transitive(a[1..], b[1..], c[1..]); }
  }

  lemma {:induction false} Trichotomy(a: string, b: string)
    ensures a == b || Less(a, b) || Less(b, a)
  {
    if a != "" && b != "" && a[0] == b[0] {
      Trichotomy(a[1..], b[1..]);
      if a[1..] == b[1..] { assert a == [a[0]] + a[1..] && b == [b[0]] + b[1..]; }
    }
  }

  lemma Asymmetric(a: string, b: string)
    requires Less(a, b)
    ensures !Less(b, a)
  {
    if Less(b, a) {
      Transitive(a, b, a);
      Irreflexive(a);
    }
  }
}
