/** The two keyboard layouts of the flashcard application (ai-main.py) and the
    character tables built from them: `en2ru` sends a key of the English layout
    to the key at the same place of the Russian one, and `ru2en` goes back. */
module Keyboard {

  /** The English layout, unshifted then shifted, in rows of 17 keys. */
  const En0: string := "`qwertyuiop[]asdf"
  const En1: string := "ghjkl;'zxcvbnm,./"
  const En2: string := "~QWERTYUIOP{}ASDF"
  const En3: string := "GHJKL:\"ZXCVBNM<>?"
  const En: string := En0 + En1 + En2 + En3

  /** The Russian layout, key for key. */
  const Ru0: string := "ёйцукенгшщзхъфыва"
  const Ru1: string := "пролджэячсмитьбю."
  const Ru2: string := "ЁЙЦУКЕНГШЩЗХЪФЫВА"
  const Ru3: string := "ПРОЛДЖЭЯЧСМИТЬБЮ,"
  const Ru: string := Ru0 + Ru1 + Ru2 + Ru3

  predicate Distinct(s: string)
  {
    forall i, j :: 0 <= i < j < |s| ==> s[i] != s[j]
  }

  predicate Disjoint(s: string, t: string)
  {
    forall i, j :: 0 <= i < |s| && 0 <= j < |t| ==> s[i] != t[j]
  }

  /** `{k: v for k, v in zip(ks, vs)}`: pairs are stored in order, so a key met
      twice keeps its last value. */
  function Zip(ks: string, vs: string): (m: map<char, char>)
    requires |ks| == |vs|
    ensures m.Keys == set c | c in ks
    decreases |ks|
  {
    if ks == [] then map[]
    else
      var n := |ks| - 1;
      assert forall c :: c in ks <==> c in ks[..n] || c == ks[n];
      Zip(ks[..n], vs[..n])[ks[n] := vs[n]]
  }

  /** Without repeated keys, the key at each place goes to the value at that
      place. */
  lemma {:induction false} ZipAt(ks: string, vs: string, i: nat)
    requires |ks| == |vs| && Distinct(ks) && i < |ks|
    ensures Zip(ks, vs)[ks[i]] == vs[i]
    decreases |ks|
  {
    var n := |ks| - 1;
    if i < n {
      ZipAt(ks[..n], vs[..n], i);
    }
  }

  /** The first position of `c` in `s`. */
  function IndexOf(s: string, c: char): (i: nat)
    requires c in s
    ensures i < |s| && s[i] == c
  {
    if s[0] == c then 0 else 1 + IndexOf(s[1..], c)
  }

  /** Going to the other layout and back gives the key started from, whenever
      neither layout repeats a key. */
  lemma ZipRoundTrip(ks: string, vs: string, c: char)
    requires |ks| == |vs| && Distinct(ks) && Distinct(vs) && c in ks
    ensures Zip(ks, vs)[c] in Zip(vs, ks) && Zip(vs, ks)[Zip(ks, vs)[c]] == c
  {
    var i := IndexOf(ks, c);
    ZipAt(ks, vs, i);
    ZipAt(vs, ks, i);
  }

  lemma DistinctConcat(a: string, b: string)
    requires Distinct(a) && Distinct(b) && Disjoint(a, b)
    ensures Distinct(a + b)
  {
    forall i, j | 0 <= i < j < |a + b|
      ensures (a + b)[i] != (a + b)[j]
    {
      if j < |a| {
      } else if i >= |a| {
        assert (a + b)[i] == b[i - |a|] && (a + b)[j] == b[j - |a|];
      } else {
        assert (a + b)[j] == b[j - |a|];
      }
    }
  }

  lemma DisjointConcat(a: string, b: string, c: string)
    requires Disjoint(a, c) && Disjoint(b, c)
    ensures Disjoint(a + b, c)
  {
    forall i, j | 0 <= i < |a + b| && 0 <= j < |c|
      ensures (a + b)[i] != c[j]
    {
      if i >= |a| {
        assert (a + b)[i] == b[i - |a|];
      }
    }
  }

  /** Four rows without repeats inside or across them make a layout without
      repeats. */
  lemma RowsDistinct(r0: string, r1: string, r2: string, r3: string)
    requires Distinct(r0) && Distinct(r1) && Distinct(r2) && Distinct(r3)
    requires Disjoint(r0, r1) && Disjoint(r0, r2) && Disjoint(r0, r3)
    requires Disjoint(r1, r2) && Disjoint(r1, r3) && Disjoint(r2, r3)
    ensures Distinct(r0 + r1 + r2 + r3)
  {
    DistinctConcat(r0, r1);
    DisjointConcat(r0, r1, r2);
    DistinctConcat(r0 + r1, r2);
    DisjointConcat(r0, r1, r3);
    DisjointConcat(r0 + r1, r2, r3);
    DistinctConcat(r0 + r1 + r2, r3);
  }

  // Each row, and each pair of rows, checked on its own.
  lemma En0Distinct() ensures Distinct(En0) {}
  lemma En1Distinct() ensures Distinct(En1) {}
  lemma En2Distinct() ensures Distinct(En2) {}
  lemma En3Distinct() ensures Distinct(En3) {}
  lemma En01Disjoint() ensures Disjoint(En0, En1) {
    forall i | 0 <= i < |En0| ensures En0[i] !in En1 { }
  }
  lemma En02Disjoint() ensures Disjoint(En0, En2) {
    forall i | 0 <= i < |En0| ensures En0[i] !in En2 { }
  }
  lemma En03Disjoint() ensures Disjoint(En0, En3) {
    forall i | 0 <= i < |En0| ensures En0[i] !in En3 { }
  }
  lemma En12Disjoint() ensures Disjoint(En1, En2) {
    forall i | 0 <= i < |En1| ensures En1[i] !in En2 { }
  }
  lemma En13Disjoint() ensures Disjoint(En1, En3) {
    forall i | 0 <= i < |En1| ensures En1[i] !in En3 { }
  }
  lemma En23Disjoint() ensures Disjoint(En2, En3) {
    forall i | 0 <= i < |En2| ensures En2[i] !in En3 { }
  }
  lemma Ru0Distinct() ensures Distinct(Ru0) {}
  lemma Ru1Distinct() ensures Distinct(Ru1) {}
  lemma Ru2Distinct() ensures Distinct(Ru2) {}
  lemma Ru3Distinct() ensures Distinct(Ru3) {}
  lemma Ru01Disjoint() ensures Disjoint(Ru0, Ru1) {
    forall i | 0 <= i < |Ru0| ensures Ru0[i] !in Ru1 { }
  }
  lemma Ru02Disjoint() ensures Disjoint(Ru0, Ru2) {
    forall i | 0 <= i < |Ru0| ensures Ru0[i] !in Ru2 { }
  }
  lemma Ru03Disjoint() ensures Disjoint(Ru0, Ru3) {
    forall i | 0 <= i < |Ru0| ensures Ru0[i] !in Ru3 { }
  }
  lemma Ru12Disjoint() ensures Disjoint(Ru1, Ru2) {
    forall i | 0 <= i < |Ru1| ensures Ru1[i] !in Ru2 { }
  }
  lemma Ru13Disjoint() ensures Disjoint(Ru1, Ru3) {
    forall i | 0 <= i < |Ru1| ensures Ru1[i] !in Ru3 { }
  }
  lemma Ru23Disjoint() ensures Disjoint(Ru2, Ru3) {
    forall i | 0 <= i < |Ru2| ensures Ru2[i] !in Ru3 { }
  }

  /** Neither layout repeats a key, and they have the same length. */
  lemma LayoutsDistinct()
    ensures |En| == |Ru| == 68 && Distinct(En) && Distinct(Ru)
  {
    En0Distinct(); En1Distinct(); En2Distinct(); En3Distinct();
    En01Disjoint(); En02Disjoint(); En03Disjoint(); En12Disjoint(); En13Disjoint(); En23Disjoint();
    RowsDistinct(En0, En1, En2, En3);
    Ru0Distinct(); Ru1Distinct(); Ru2Distinct(); Ru3Distinct();
    Ru01Disjoint(); Ru02Disjoint(); Ru03Disjoint(); Ru12Disjoint(); Ru13Disjoint(); Ru23Disjoint();
    RowsDistinct(Ru0, Ru1, Ru2, Ru3);
  }

  /** `en2ru`. */
  function En2Ru(): (m: map<char, char>)
    ensures m.Keys == set c | c in En
  {
    Zip(En, Ru)
  }

  /** `ru2en`: keyed by the Russian layout. */
  function Ru2En(): (m: map<char, char>)
    ensures m.Keys == set c | c in Ru
  {
    Zip(Ru, En)
  }

  /** `ru2en[en2ru[c]] == c` for every key of the English layout. */
  lemma EnRuRoundTrip(c: char)
    requires c in En
    ensures En2Ru()[c] in Ru2En() && Ru2En()[En2Ru()[c]] == c
  {
    LayoutsDistinct();
    ZipRoundTrip(En, Ru, c);
  }

  /** `en2ru[ru2en[c]] == c` for every key of the Russian layout. */
  lemma RuEnRoundTrip(c: char)
    requires c in Ru
    ensures Ru2En()[c] in En2Ru() && En2Ru()[Ru2En()[c]] == c
  {
    LayoutsDistinct();
    ZipRoundTrip(Ru, En, c);
  }

  /** The tables send the key at each place of one layout to the key at the same
      place of the other. */
  lemma SamePlace(i: nat)
    requires i < 68
    ensures En2Ru()[En[i]] == Ru[i] && Ru2En()[Ru[i]] == En[i]
  {
    LayoutsDistinct();
    ZipAt(En, Ru, i);
    ZipAt(Ru, En, i);
  }
}
