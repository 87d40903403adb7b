/** Ordered duplicate-free lists of model names and the set operations on them. */
module ModelNames {
  import opened Text

  function Elems(s: seq<string>): set<string> {
    set x | x in s
  }

  /** The members of `s` that are in `names`, in order. */
  function Keep(s: seq<string>, names: set<string>): (r: seq<string>)
    ensures forall x {:trigger x in r} :: x in r <==> x in s && x in names
  {
    if s == [] then []
    else
      var rest := Keep(s[..|s| - 1], names);
      var last := s[|s| - 1];
      assert s == s[..|s| - 1] + [last];
      if last in names then rest + [last] else rest
  }

  function Drop(s: seq<string>, names: set<string>): seq<string> {
    Keep(s, Elems(s) - names)
  }

  predicate Distinct(s: seq<string>) {
    forall i, j :: 0 <= i < j < |s| ==> s[i] != s[j]
  }

  /** What normalisation produces: trimmed nonempty names without duplicates. */
  predicate Normal(s: seq<string>) {
    && Distinct(s)
    && forall x :: x in s ==> x != "" && Trimmed(x)
  }

  /** `lo.FilterMap` of trimming and `lo.Uniq`: first occurrences of the nonempty trimmed names. */
  function Normalize(s: seq<string>): (r: seq<string>)
    ensures Normal(r)
  {
    if s == [] then []
    else
      var rest := Normalize(s[..|s| - 1]);
      var name := TrimSpace(s[|s| - 1]);
      TrimSpaceTrims(s[|s| - 1]);
      if name == "" || name in rest then rest else rest + [name]
  }

  function Merge(base: seq<string>, appended: seq<string>): seq<string> {
    Normalize(base) + Drop(Normalize(appended), Elems(Normalize(base)))
  }

  function Subtract(base: seq<string>, removed: seq<string>): seq<string> {
    Drop(Normalize(base), Elems(Normalize(removed)))
  }

  function Intersect(base: seq<string>, allowed: seq<string>): seq<string> {
    Keep(Normalize(base), Elems(Normalize(allowed)))
  }

  lemma {:induction false} NormalizeNormal(s: seq<string>)
    requires Normal(s)
    ensures Normalize(s) == s
  {
    if s != [] {
      var front := s[..|s| - 1];
      assert s == front + [s[|s| - 1]];
      assert s[|s| - 1] in s;
      assert forall x :: x in front ==> x in s;
      NormalizeNormal(front);
      TrimSpaceTrims(s[|s| - 1]);
    }
  }

  /** Normalising keeps exactly the nonempty trimmed names. */
  lemma {:induction false} NormalizeMembers(s: seq<string>, x: string)
    ensures x in Normalize(s) <==> x != "" && exists y :: y in s && TrimSpace(y) == x
  {
    if s != [] {
      var front, last := s[..|s| - 1], s[|s| - 1];
      NormalizeMembers(front, x);
      assert s == front + [last];
      assert forall y :: y in s <==> y in front || y == last;
    }
  }

  lemma {:induction false} KeepDistinct(s: seq<string>, names: set<string>)
    requires Distinct(s)
    ensures Distinct(Keep(s, names))
  {
    if s != [] {
      var front, last := s[..|s| - 1], s[|s| - 1];
      KeepDistinct(front, names);
      assert last !in front && last !in Keep(front, names);
    }
  }

  lemma KeepNormal(s: seq<string>, names: set<string>)
    requires Normal(s)
    ensures Normal(Keep(s, names))
  {
    KeepDistinct(s, names);
  }

  /** Keeping depends only on which members of the list are named. */
  lemma {:induction false} KeepSame(s: seq<string>, a: set<string>, b: set<string>)
    requires forall x :: x in s ==> (x in a <==> x in b)
    ensures Keep(s, a) == Keep(s, b)
  {
    if s != [] {
      assert s[|s| - 1] in s;
      assert forall x :: x in s[..|s| - 1] ==> x in s;
      KeepSame(s[..|s| - 1], a, b);
    }
  }

  lemma {:induction false} KeepKeep(s: seq<string>, a: set<string>, b: set<string>)
    ensures Keep(Keep(s, a), b) == Keep(s, a * b)
  {
    if s != [] {
      var front, last := s[..|s| - 1], s[|s| - 1];
      KeepKeep(front, a, b);
      if last in a {
        var kept := Keep(front, a) + [last];
        assert kept[..|kept| - 1] == Keep(front, a);
      }
    }
  }

  lemma {:induction false} KeepAppend(s: seq<string>, t: seq<string>, a: set<string>)
    ensures Keep(s + t, a) == Keep(s, a) + Keep(t, a)
  {
    if t == [] {
      assert s + t == s;
    } else {
      var whole := s + t;
      assert whole[..|whole| - 1] == s + t[..|t| - 1];
      KeepAppend(s, t[..|t| - 1], a);
    }
  }

  lemma {:induction false} KeepAll(s: seq<string>, a: set<string>)
    requires Elems(s) <= a
    ensures Keep(s, a) == s
  {
    if s != [] {
      assert s[|s| - 1] in Elems(s);
      assert forall x :: x in s[..|s| - 1] ==> x in Elems(s);
      KeepAll(s[..|s| - 1], a);
    }
  }

  /** Two kept sublists agree exactly when they keep the same members. */
  lemma KeepEqual(s: seq<string>, a: set<string>, b: set<string>)
    ensures Keep(s, a) == Keep(s, b) <==> forall x :: x in s ==> (x in a <==> x in b)
  {
    if forall x :: x in s ==> (x in a <==> x in b) {
      KeepSame(s, a, b);
    } else {
      var x :| x in s && !(x in a <==> x in b);
      assert x in Keep(s, a) <==> x !in Keep(s, b);
    }
  }

  lemma {:induction false} KeepNothing(s: seq<string>)
    ensures Keep(s, {}) == []
  {
    if s != [] {
      KeepNothing(s[..|s| - 1]);
    }
  }

  /** Dropping from a kept sublist, compared with keeping something else from the same list. */
  lemma DropKept(s: seq<string>, a: set<string>, gone: set<string>, b: set<string>)
    ensures Keep(s, b) == Drop(Keep(s, a), gone)
            <==> forall x :: x in s ==> (x in b <==> x in a && x !in gone)
  {
    var left := Elems(Keep(s, a)) - gone;
    KeepKeep(s, a, left);
    KeepEqual(s, b, a * left);
    forall x | x in s ensures x in a * left <==> x in a && x !in gone {
      assert x in Keep(s, a) <==> x in a;
    }
  }

  lemma NormalAppend(s: seq<string>, t: seq<string>)
    requires Normal(s) && Normal(t) && Elems(s) !! Elems(t)
    ensures Normal(s + t)
  {
    forall i, j | 0 <= i < j < |s + t| ensures (s + t)[i] != (s + t)[j] {
      if i < |s| <= j {
        assert s[i] in Elems(s) && t[j - |s|] in Elems(t);
      }
    }
  }

  /** Merging names that are all new only appends them. */
  lemma MergeDisjoint(base: seq<string>, added: seq<string>)
    requires Normal(base) && Normal(added) && Elems(base) !! Elems(added)
    ensures Merge(base, added) == base + added
    ensures Normal(base + added)
  {
    NormalizeNormal(base);
    NormalizeNormal(added);
    KeepAll(added, Elems(added) - Elems(base));
    NormalAppend(base, added);
  }

  lemma MergeNormal(base: seq<string>, appended: seq<string>)
    ensures Normal(Merge(base, appended))
    ensures Elems(Merge(base, appended)) == Elems(Normalize(base)) + Elems(Normalize(appended))
  {
    var origin, added := Normalize(base), Normalize(appended);
    KeepNormal(added, Elems(added) - Elems(origin));
    NormalAppend(origin, Drop(added, Elems(origin)));
  }

  lemma NormalizeLast(front: seq<string>, last: string)
    ensures var rest, name := Normalize(front), TrimSpace(last);
            Normalize(front + [last]) == if name == "" || name in rest then rest else rest + [name]
  {
    assert (front + [last])[..|front|] == front;
  }

  lemma {:induction false} NormalizeSkipsEmpty(s: seq<string>)
    ensures Normalize([""] + s) == Normalize(s)
  {
    if s == [] {
      NormalizeLast([], "");
      assert [""] + s == [] + [""];
    } else {
      var front, last := s[..|s| - 1], s[|s| - 1];
      assert s == front + [last] && [""] + s == ([""] + front) + [last];
      NormalizeLast(front, last);
      NormalizeLast([""] + front, last);
      NormalizeSkipsEmpty(front);
    }
  }

  /** Separators at either end of a column only yield empty names. */
  lemma {:induction false} NormalizeTrimmedColumn(column: string, sep: char)
    ensures Normalize(Split(TrimChar(column, sep), sep)) == Normalize(Split(column, sep))
    decreases |column|
  {
    if column != "" && column[0] == sep {
      assert column == "" + [sep] + column[1..];
      SplitAt("", sep, column[1..]);
      SplitWhole("", sep);
      NormalizeSkipsEmpty(Split(column[1..], sep));
      NormalizeTrimmedColumn(column[1..], sep);
    } else if column != "" && column[|column| - 1] == sep {
      var front := column[..|column| - 1];
      assert column == front + [sep] + "";
      SplitAt(front, sep, "");
      SplitWhole("", sep);
      NormalizeLast(Split(front, sep), "");
      NormalizeTrimmedColumn(front, sep);
    }
  }

  /** A normal list stays in front of whatever follows it. */
  lemma {:induction false} NormalizePrefix(s: seq<string>, t: seq<string>)
    requires Normal(s)
    ensures s <= Normalize(s + t)
    decreases |t|
  {
    if t == [] {
      assert s + t == s;
      NormalizeNormal(s);
    } else {
      var front := t[..|t| - 1];
      assert (s + t)[..|s + t| - 1] == s + front;
      NormalizePrefix(s, front);
    }
  }

  /** `mergeModelNames`: the appended names that are new follow the base, in order. */
  method MergeModelNames(base: seq<string>, appended: seq<string>) returns (merged: seq<string>)
    ensures merged == Merge(base, appended)
  {
    merged := Normalize(base);
    ghost var origin := merged;
    var seen := CollectSet(merged);
    var added := Normalize(appended);
    ghost var wanted := Elems(added) - Elems(origin);
    for i := 0 to |added|
      invariant seen == Elems(origin) + Elems(added[..i])
      invariant merged == origin + Keep(added[..i], wanted)
    {
      StepThrough(added, i, wanted);
      if added[i] !in seen {
        seen := seen + {added[i]};
        merged := merged + [added[i]];
      }
    }
    assert added[..|added|] == added;
  }

  /** One more name of a list without duplicates. */
  lemma StepThrough(s: seq<string>, i: nat, names: set<string>)
    requires Distinct(s) && i < |s|
    ensures s[i] in s && s[i] !in s[..i]
    ensures Elems(s[..i + 1]) == Elems(s[..i]) + {s[i]}
    ensures Keep(s[..i + 1], names) == Keep(s[..i], names) + if s[i] in names then [s[i]] else []
  {
    assert s[..i + 1] == s[..i] + [s[i]] && s[..i + 1][..i] == s[..i];
  }

  /** `subtractModelNames` */
  method SubtractModelNames(base: seq<string>, removed: seq<string>) returns (r: seq<string>)
    ensures r == Subtract(base, removed)
  {
    var removeSet := CollectSet(Normalize(removed));
    r := Drop(Normalize(base), removeSet);
  }

  /** `intersectModelNames` */
  method IntersectModelNames(base: seq<string>, allowed: seq<string>) returns (r: seq<string>)
    ensures r == Intersect(base, allowed)
  {
    var allowedSet := CollectSet(Normalize(allowed));
    r := Keep(Normalize(base), allowedSet);
  }

  /** The loop that fills a Go set from a slice. */
  method CollectSet(names: seq<string>) returns (r: set<string>)
    ensures r == Elems(names)
  {
    r := {};
    for i := 0 to |names|
      invariant r == Elems(names[..i])
    {
      r := r + {names[i]};
      assert names[..i + 1] == names[..i] + [names[i]];
    }
    assert names[..|names|] == names;
  }
}
