/** The order SQL and Rust use on text, and sorting by it. */
module Orders {

  /** Lexicographic order on character sequences. */
  predicate LexLess(a: string, b: string) {
    if b == "" then false
    else if a == "" then true
    else if a[0] != b[0] then a[0] < b[0]
    else LexLess(a[1..], b[1..])
  }

  lemma {:induction false} LexTrichotomy(a: string, b: string)
    ensures LexLess(a, b) || a == b || LexLess(b, a)
  {
    if a != "" && b != "" && a[0] == b[0] {
      LexTrichotomy(a[1..], b[1..]);
      assert a == [a[0]] + a[1..] && b == [b[0]] + b[1..];
    }
  }

  lemma {:induction false} LexTransitive(a: string, b: string, c: string)
    requires LexLess(a, b) && LexLess(b, c)
    ensures LexLess(a, c)
  {
    if a != "" && b != "" && c != "" && a[0] == b[0] && b[0] == c[0] {
      LexTransitive(a[1..], b[1..], c[1..]);
    }
  }

  lemma {:induction false} LexIrreflexive(a: string)
    ensures !LexLess(a, a)
  {
    if a != "" {
      LexIrreflexive(a[1..]);
    }
  }

  /** Text order: at the first difference the smaller character decides, and a prefix comes first. */
  ghost predicate TextUpTo(a: string, b: string) {
    a <= b || exists k :: DiffersAt(a, b, k)
  }

  ghost predicate DiffersAt(a: string, b: string, k: int) {
    0 <= k < |a| && k < |b| && a[..k] == b[..k] && a[k] < b[k]
  }

  lemma DiffersLater(a: string, b: string, k: int)
    requires a != "" && b != "" && a[0] == b[0]
    ensures DiffersAt(a, b, k) <==> k > 0 && DiffersAt(a[1..], b[1..], k - 1)
  {
    if 0 < k < |a| && k < |b| {
      assert a[..k] == [a[0]] + a[1..][..k - 1] && b[..k] == [b[0]] + b[1..][..k - 1];
      assert a[..k][1..] == a[1..][..k - 1] && b[..k][1..] == b[1..][..k - 1];
    }
  }

  lemma {:induction false} LexMeans(a: string, b: string)
    ensures LexLess(a, b) || a == b <==> TextUpTo(a, b)
  {
    hide DiffersAt;
    if a == "" || b == "" {
      NothingDiffers(a, b);
    } else if a[0] == b[0] {
      LexMeans(a[1..], b[1..]);
      assert a == [a[0]] + a[1..] && b == [b[0]] + b[1..];
      LaterDiffers(a, b);
    } else {
      FirstDiffers(a, b);
    }
  }

  lemma NothingDiffers(a: string, b: string)
    requires a == "" || b == ""
    ensures forall k :: !DiffersAt(a, b, k)
  {
  }

  lemma FirstDiffers(a: string, b: string)
    requires a != "" && b != "" && a[0] != b[0]
    ensures (exists k :: DiffersAt(a, b, k)) <==> a[0] < b[0]
    ensures !(a <= b)
  {
    assert a[0] < b[0] ==> DiffersAt(a, b, 0);
    forall k ensures DiffersAt(a, b, k) ==> k == 0 {
      if 0 < k < |a| && k < |b| {
        assert a[..k][0] != b[..k][0];
      }
    }
  }

  lemma LaterDiffers(a: string, b: string)
    requires a != "" && b != "" && a[0] == b[0]
    ensures (exists k :: DiffersAt(a, b, k)) <==> (exists k :: DiffersAt(a[1..], b[1..], k))
    ensures a <= b <==> a[1..] <= b[1..]
  {
    if k :| DiffersAt(a, b, k) {
      DiffersLater(a, b, k);
    }
    if k :| DiffersAt(a[1..], b[1..], k) {
      DiffersLater(a, b, k + 1);
    }
    assert a == [a[0]] + a[1..] && b == [b[0]] + b[1..];
  }
}
