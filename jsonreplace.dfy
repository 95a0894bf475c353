/** `str.replace` with the placeholder of the makes template, and the same
    replacement applied to every string of a decoded JSON value. */
module JsonReplace {
  import opened PyJson

  // ---------------------------------------------------------------------
  // `str.replace`
  // ---------------------------------------------------------------------

  /** `s.replace(pat, rep)`: every occurrence of `pat`, scanned from the
      left and without overlaps, is replaced by `rep`. */
  function ReplaceAll(s: string, pat: string, rep: string): string
    requires pat != []
    decreases |s|
  {
    if |s| < |pat| then s
    else if s[..|pat|] == pat then rep + ReplaceAll(s[|pat|..], pat, rep)
    else [s[0]] + ReplaceAll(s[1..], pat, rep)
  }

  /** `pat` occurs nowhere in `s`. */
  predicate Absent(s: string, pat: string)
    decreases |s|
  {
    |s| < |pat| || (s[..|pat|] != pat && Absent(s[1..], pat))
  }

  /** A string without the pattern is left unchanged. */
  lemma {:induction false} ReplaceAbsent(s: string, pat: string, rep: string)
    requires pat != [] && Absent(s, pat)
    ensures ReplaceAll(s, pat, rep) == s
    decreases |s|
  {
    if |s| >= |pat| {
      ReplaceAbsent(s[1..], pat, rep);
      assert s == [s[0]] + s[1..];
    }
  }

  /** The pattern itself becomes the replacement. */
  lemma ReplaceWhole(pat: string, rep: string)
    requires pat != []
    ensures ReplaceAll(pat, pat, rep) == rep
  {
    assert pat[..|pat|] == pat;
    assert pat[|pat|..] == [];
    assert rep + [] == rep;
  }

  /** The template's placeholder: the advertising location of cars. */
  const Placeholder: string := "at_cars"

  predicate NoUnderscore(s: string) {
    forall i :: 0 <= i < |s| ==> s[i] != '_'
  }

  /** No `t` is directly followed by `_`. */
  predicate NoTU(s: string) {
    forall i :: 0 <= i < |s| - 1 ==> !(s[i] == 't' && s[i + 1] == '_')
  }

  lemma NoUnderscoreNoTU(s: string)
    requires NoUnderscore(s)
    ensures NoTU(s)
  {
    forall i | 0 <= i < |s| - 1 ensures !(s[i] == 't' && s[i + 1] == '_') {
      assert s[i + 1] != '_';
    }
  }

  /** The placeholder contains `t_`, so a string without `t_` has no
      placeholder in it. */
  lemma {:induction false} NoTUAbsent(s: string)
    requires NoTU(s)
    ensures Absent(s, Placeholder)
    decreases |s|
  {
    if |s| >= |Placeholder| {
      assert s[..7][1] == s[1] && s[..7][2] == s[2];
      var t := s[1..];
      forall i | 0 <= i < |t| - 1 ensures !(t[i] == 't' && t[i + 1] == '_') {
        assert t[i] == s[i + 1] && t[i + 1] == s[i + 2];
      }
      NoTUAbsent(t);
    }
  }

  lemma ReplaceNoTU(s: string, rep: string)
    requires NoTU(s)
    ensures ReplaceAll(s, Placeholder, rep) == s
  {
    NoTUAbsent(s);
    ReplaceAbsent(s, Placeholder, rep);
  }

  lemma ReplaceNoUnderscore(s: string, rep: string)
    requires NoUnderscore(s)
    ensures ReplaceAll(s, Placeholder, rep) == s
  {
    NoUnderscoreNoTU(s);
    ReplaceNoTU(s, rep);
  }

  /** No `t_` arises where two pieces meet when the first does not end in
      `t`. */
  lemma NoTUConcat(a: string, b: string)
    requires NoTU(a) && NoTU(b) && (a != [] ==> a[|a| - 1] != 't')
    ensures NoTU(a + b)
  {
    var s := a + b;
    forall i | 0 <= i < |s| - 1 ensures !(s[i] == 't' && s[i + 1] == '_') {
      if i < |a| - 1 {
        assert s[i] == a[i] && s[i + 1] == a[i + 1];
      } else if i == |a| - 1 {
        assert s[i] == a[i];
      } else {
        assert s[i] == b[i - |a|] && s[i + 1] == b[i + 1 - |a|];
      }
    }
  }

  // ---------------------------------------------------------------------
  // The same replacement on a decoded JSON value
  // ---------------------------------------------------------------------

  /** The replacement applied to every string of a decoded value, keys
      included. When the replacement text has no `"`, `\` or control
      character, replacing in the JSON text and then decoding gives this
      value: the placeholder never straddles an escape sequence, and the
      inserted text needs none. */
  function Subst(j: Json, rep: string): Json
    decreases j
  {
    match j
    case JStr(s) => JStr(ReplaceAll(s, Placeholder, rep))
    case JArr(items) => JArr(seq(|items|, k requires 0 <= k < |items| => Subst(items[k], rep)))
    case JObj(fields) =>
      JObj(seq(|fields|, k requires 0 <= k < |fields| =>
                 (ReplaceAll(fields[k].0, Placeholder, rep), Subst(fields[k].1, rep))))
    case _ => j
  }

  lemma SubstList1(x: Json, rep: string)
    ensures Subst(JArr([x]), rep) == JArr([Subst(x, rep)])
  {
  }

  lemma SubstStrList1(s: string, rep: string)
    ensures Subst(JArr([JStr(s)]), rep) == JArr([JStr(ReplaceAll(s, Placeholder, rep))])
  {
    SubstList1(JStr(s), rep);
  }

  lemma SubstStrNoTU(s: string, rep: string)
    requires NoTU(s)
    ensures Subst(JStr(s), rep) == JStr(s)
  {
    ReplaceNoTU(s, rep);
  }

  /** The replacement leaves `k` as it is. */
  predicate Kept(k: string, rep: string) {
    ReplaceAll(k, Placeholder, rep) == k
  }

  lemma SubstObj2(k1: string, v1: Json, k2: string, v2: Json, rep: string)
    requires Kept(k1, rep) && Kept(k2, rep)
    ensures Subst(JObj([(k1, v1), (k2, v2)]), rep) == JObj([(k1, Subst(v1, rep)), (k2, Subst(v2, rep))])
  {
    var d := [(k1, v1), (k2, v2)];
    var e := [(k1, Subst(v1, rep)), (k2, Subst(v2, rep))];
    var r := Subst(JObj(d), rep).fields;
    assert |r| == |e| == 2;
    forall i | 0 <= i < 2 ensures r[i] == e[i] {
      assert r[i] == (ReplaceAll(d[i].0, Placeholder, rep), Subst(d[i].1, rep));
    }
    assert r == e;
  }

  lemma SubstObj3(k1: string, v1: Json, k2: string, v2: Json, k3: string, v3: Json, rep: string)
    requires Kept(k1, rep) && Kept(k2, rep) && Kept(k3, rep)
    ensures Subst(JObj([(k1, v1), (k2, v2), (k3, v3)]), rep) == JObj([(k1, Subst(v1, rep)), (k2, Subst(v2, rep)), (k3, Subst(v3, rep))])
  {
    var d := [(k1, v1), (k2, v2), (k3, v3)];
    var e := [(k1, Subst(v1, rep)), (k2, Subst(v2, rep)), (k3, Subst(v3, rep))];
    var r := Subst(JObj(d), rep).fields;
    assert |r| == |e| == 3;
    forall i | 0 <= i < 3 ensures r[i] == e[i] {
      assert r[i] == (ReplaceAll(d[i].0, Placeholder, rep), Subst(d[i].1, rep));
    }
    assert r == e;
  }

  lemma SubstObj4(k1: string, v1: Json, k2: string, v2: Json, k3: string, v3: Json, k4: string, v4: Json, rep: string)
    requires Kept(k1, rep) && Kept(k2, rep) && Kept(k3, rep) && Kept(k4, rep)
    ensures Subst(JObj([(k1, v1), (k2, v2), (k3, v3), (k4, v4)]), rep) == JObj([(k1, Subst(v1, rep)), (k2, Subst(v2, rep)), (k3, Subst(v3, rep)), (k4, Subst(v4, rep))])
  {
    var d := [(k1, v1), (k2, v2), (k3, v3), (k4, v4)];
    var e := [(k1, Subst(v1, rep)), (k2, Subst(v2, rep)), (k3, Subst(v3, rep)), (k4, Subst(v4, rep))];
    var r := Subst(JObj(d), rep).fields;
    assert |r| == |e| == 4;
    forall i | 0 <= i < 4 ensures r[i] == e[i] {
      assert r[i] == (ReplaceAll(d[i].0, Placeholder, rep), Subst(d[i].1, rep));
    }
    assert r == e;
  }
}
