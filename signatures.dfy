/**
 Vendor button signatures and a table-driven decoder over them. A signature
 fires when the group byte (byte 0) and one other byte both hold given
 values; a table of signatures is searched first match first, and a report
 that matches none falls back to the ordinary key code in byte 2.
 */
module Signatures {
  import opened Keyboard

  datatype Option<T> = None | Some(value: T)

  /** Positions a signature may test besides the group byte. */
  type SecondaryIndex = i: nat | 1 <= i < ReportLength witness 1

  /** Fires when byte 0 is `group` and byte `index` is `value`; reports `key`. */
  datatype Signature = Signature(group: byte, index: SecondaryIndex, value: byte, key: KeyCode)

  predicate Matches(s: Signature, d: Report) {
    d[0] == s.group && d[s.index] == s.value
  }

  /** No report satisfies both signatures. */
  ghost predicate Disjoint(a: Signature, b: Signature) {
    forall d: Report :: !(Matches(a, d) && Matches(b, d))
  }

  /** The syntactic test that tells two signatures apart: different group
      bytes, or the same secondary byte with different values. */
  predicate Distinguishable(a: Signature, b: Signature) {
    a.group != b.group || (a.index == b.index && a.value != b.value)
  }

  /** Every two different signatures of the table are disjoint, so at most
      one signature can fire for any report. */
  ghost predicate Unambiguous(t: seq<Signature>) {
    forall a, b :: a in t && b in t && a != b ==> Disjoint(a, b)
  }

  /** `i` is the position of the first signature of `t` that fires on `d`. */
  ghost predicate FirstMatchAt(t: seq<Signature>, d: Report, i: int) {
    0 <= i < |t| && Matches(t[i], d) && forall j :: 0 <= j < i ==> !Matches(t[j], d)
  }

  /** First-match search of the table, as an else-if chain does it. */
  function Lookup(t: seq<Signature>, d: Report): (r: Option<KeyCode>)
    ensures r.Some? ==> exists s :: s in t && Matches(s, d) && s.key == r.value
    ensures r.None? <==> forall s :: s in t ==> !Matches(s, d)
  {
    if |t| == 0 then None
    else if Matches(t[0], d) then Some(t[0].key)
    else
      assert forall s :: s in t ==> s == t[0] || s in t[1..];
      Lookup(t[1..], d)
  }

  /** The table-driven decoder: the key of the signature that fires, or the
      ordinary key code in byte 2 when none does. */
  function Dispatch(t: seq<Signature>, d: Report): KeyCode {
    match Lookup(t, d)
    case Some(k) => k
    case None => Passthrough(d[2])
  }

  /** The syntactic test is exact: two signatures are disjoint if and only
      if they are distinguishable. */
  lemma DisjointExactly(a: Signature, b: Signature)
    ensures Disjoint(a, b) <==> Distinguishable(a, b)
  {
    if !Distinguishable(a, b) {
      var d: Report := seq(ReportLength, i requires 0 <= i < ReportLength =>
        if i == 0 then a.group
        else if i == a.index then a.value
        else if i == b.index then b.value
        else 0);
      assert Matches(a, d) && Matches(b, d);
    }
  }

  /** Lookup reports the key of the first signature that fires. */
  lemma {:induction false} LookupFirstMatch(t: seq<Signature>, d: Report, i: int)
    requires FirstMatchAt(t, d, i)
    ensures Lookup(t, d) == Some(t[i].key)
  {
    if i > 0 {
      assert !Matches(t[0], d);
      LookupFirstMatch(t[1..], d, i - 1);
    }
  }

  /** In an unambiguous table, whichever signature fires decides the key,
      wherever it stands in the table. */
  lemma {:induction false} LookupUnambiguous(t: seq<Signature>, d: Report, s: Signature)
    requires Unambiguous(t)
    requires s in t && Matches(s, d)
    ensures Lookup(t, d) == Some(s.key)
  {
    if !Matches(t[0], d) {
      assert s != t[0];
      assert s in t[1..];
      assert Unambiguous(t[1..]) by {
        forall a | a in t[1..] ensures a in t { }
      }
      LookupUnambiguous(t[1..], d, s);
    }
  }

  /** The order of an unambiguous table never changes the outcome: any table
      holding the same signatures gives the same result. */
  lemma LookupOrderIndependent(t: seq<Signature>, u: seq<Signature>, d: Report)
    requires Unambiguous(t)
    requires forall s :: s in t <==> s in u
    ensures Unambiguous(u)
    ensures Lookup(t, d) == Lookup(u, d)
    ensures Dispatch(t, d) == Dispatch(u, d)
  {
    match Lookup(t, d)
    case Some(k) =>
      var s :| s in t && Matches(s, d) && s.key == k;
      LookupUnambiguous(t, d, s);
      LookupUnambiguous(u, d, s);
    case None =>
  }
}
