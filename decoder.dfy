/**
 The raw-report decoder of the Compaq Internet Keyboard driver: nine vendor
 buttons, recognised by the group byte and one more byte, become the
 substitute keys F13 to F21; every other report passes its byte 2 through as
 the key code.
 */
module Decoder {
  import opened Keyboard
  import opened Signatures

  /** The nine vendor buttons, in the order the driver tests them. */
  const SpecialKeys: seq<Signature> := [
    Signature(4, 3, 16, F13),  // magnifying glass
    Signature(4, 3, 32, F14),  // bullseye
    Signature(4, 3, 1, F15),   // mail
    Signature(4, 3, 8, F16),   // info
    Signature(4, 3, 4, F17),   // Q logo
    Signature(4, 3, 64, F18),  // e-marketplace
    Signature(4, 3, 2, F19),   // movies and music
    Signature(3, 4, 1, F20),   // help
    Signature(3, 4, 2, F21)    // person / contact
  ]

  /** Where a substitute key stands in the table. */
  function TableIndex(k: KeyCode): (i: nat)
    requires k.IsSubstitute()
    ensures i < |SpecialKeys| && SpecialKeys[i].key == k
  {
    match k
    case F13 => 0
    case F14 => 1
    case F15 => 2
    case F16 => 3
    case F17 => 4
    case F18 => 5
    case F19 => 6
    case F20 => 7
    case F21 => 8
  }

  /** The key the driver reports for one raw report, following its else-if
      chain; the fallback never invents a code, it copies byte 2. */
  function Classify(d: Report): (k: KeyCode)
    ensures k.Passthrough? ==> k.code == d[2]
    ensures k.IsSubstitute() ==> d[0] == 3 || d[0] == 4
  {
    if d[0] == 4 && d[3] == 16 then F13
    else if d[0] == 4 && d[3] == 32 then F14
    else if d[0] == 4 && d[3] == 1 then F15
    else if d[0] == 4 && d[3] == 8 then F16
    else if d[0] == 4 && d[3] == 4 then F17
    else if d[0] == 4 && d[3] == 64 then F18
    else if d[0] == 4 && d[3] == 2 then F19
    else if d[0] == 3 && d[4] == 1 then F20
    else if d[0] == 3 && d[4] == 2 then F21
    else Passthrough(d[2])
  }

  /** The else-if chain is the table-driven decoder over the nine
      signatures. */
  lemma ClassifyIsDispatch(d: Report)
    ensures Classify(d) == Dispatch(SpecialKeys, d)
  {
    var k := Classify(d);
    if k.IsSubstitute() {
      var i := TableIndex(k);
      assert Matches(SpecialKeys[i], d);
      SpecialKeysUnambiguous();
      LookupUnambiguous(SpecialKeys, d, SpecialKeys[i]);
    } else {
      forall s | s in SpecialKeys
        ensures !Matches(s, d)
      {
      }
    }
  }

  /** No report satisfies two of the nine signatures. */
  lemma SpecialKeysUnambiguous()
    ensures Unambiguous(SpecialKeys)
  {
    forall a, b | a in SpecialKeys && b in SpecialKeys && a != b
      ensures Disjoint(a, b)
    {
      DisjointExactly(a, b);
    }
  }

  /** The nine substitute keys are distinct, and none is a passed-through
      code. */
  lemma SubstituteKeysDistinct()
    ensures forall i, j :: 0 <= i < j < |SpecialKeys| ==> SpecialKeys[i].key != SpecialKeys[j].key
    ensures forall s :: s in SpecialKeys ==> s.key.IsSubstitute()
  {
  }

  /** A signature's key is reported exactly when its signature fires: the
      group byte and the secondary byte must both match. */
  lemma SignatureFiresExactly(d: Report, s: Signature)
    requires s in SpecialKeys
    ensures Classify(d) == s.key <==> Matches(s, d)
  {
    ClassifyIsDispatch(d);
    SpecialKeysUnambiguous();
    SubstituteKeysDistinct();
    if Matches(s, d) {
      LookupUnambiguous(SpecialKeys, d, s);
    }
  }

  /** The fallback covers exactly the reports no signature fires on, and then
      reports byte 2. */
  lemma FallbackExactly(d: Report)
    ensures Classify(d).Passthrough? <==> forall s :: s in SpecialKeys ==> !Matches(s, d)
    ensures Classify(d).Passthrough? ==> Classify(d) == Passthrough(d[2])
  {
    ClassifyIsDispatch(d);
  }

  /** Testing the signatures in any other order gives the same key. */
  lemma ClassifyAnyOrder(u: seq<Signature>, d: Report)
    requires forall s :: s in u <==> s in SpecialKeys
    ensures Dispatch(u, d) == Classify(d)
  {
    ClassifyIsDispatch(d);
    SpecialKeysUnambiguous();
    LookupOrderIndependent(SpecialKeys, u, d);
  }

  /** Only bytes 0, 2, 3 and 4 decide the key: bytes 1, 5, 6 and 7 are
      never looked at. */
  lemma DecidingBytes(d: Report, e: Report)
    requires d[0] == e[0] && d[2] == e[2] && d[3] == e[3] && d[4] == e[4]
    ensures Classify(d) == Classify(e)
  {
  }

  /** Concrete reports: one per signature, and two that fall through. */
  lemma Scenarios()
    ensures Classify([4, 0, 0, 16, 0, 0, 0, 0]) == F13
    ensures Classify([4, 0, 0, 32, 0, 0, 0, 0]) == F14
    ensures Classify([4, 0, 0, 1, 0, 0, 0, 0]) == F15
    ensures Classify([4, 0, 0, 8, 0, 0, 0, 0]) == F16
    ensures Classify([4, 0, 0, 4, 0, 0, 0, 0]) == F17
    ensures Classify([4, 0, 0, 64, 0, 0, 0, 0]) == F18
    ensures Classify([4, 0, 0, 2, 0, 0, 0, 0]) == F19
    ensures Classify([3, 0, 0, 0, 1, 0, 0, 0]) == F20
    ensures Classify([3, 0, 0, 0, 2, 0, 0, 0]) == F21
    ensures Classify([0, 0, 30, 0, 0, 0, 0, 0]) == Passthrough(30)
    ensures Classify([4, 0, 0, 0, 0, 0, 0, 0]) == Passthrough(0)
    ensures Classify([0, 0, 7, 16, 0, 0, 0, 0]) == Passthrough(7)
  {
  }
}
