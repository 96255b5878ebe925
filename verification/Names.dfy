/** The byte-wise order of names, and the sorted listing of a set of them. */
module Names {

  predicate Less(a: string, b: string) {
    b != [] && (a == [] || a[0] < b[0] || (a[0] == b[0] && Less(a[1..], b[1..])))
  }

  lemma {:induction false} LessIsTotal(a: string, b: string)
    ensures Less(a, b) || a == b || Less(b, a)
    ensures !(Less(a, b) && Less(b, a)) && !Less(a, a)
  {
    if a != [] && b != [] {
      LessIsTotal(a[1..], b[1..]);
      assert a == [a[0]] + a[1..] && b == [b[0]] + b[1..];
    }
    if a != [] { LessIsTotal(a[1..], a[1..]); }
  }

  lemma {:induction false} LessIsTransitive(a: string, b: string, c: string)
    requires Less(a, b) && Less(b, c)
    ensures Less(a, c)
  {
    if a != [] && a[0] == b[0] == c[0] { LessIsTransitive(a[1..], b[1..], c[1..]); }
  }

  ghost predicate Sorted(names: seq<string>) {
    forall i, j | 0 <= i < j < |names| :: Less(names[i], names[j])
  }

  ghost function Elements(names: seq<string>): (s: set<string>) {
    set n | n in names
  }

  /** Where a name belongs among the names before it. */
  function Insert(name: string, names: seq<string>): (r: seq<string>) {
    if names == [] then [name]
    else if name == names[0] then names
    else if Less(name, names[0]) then [name] + names
    else [names[0]] + Insert(name, names[1..])
  }

  lemma ElementsCons(n: string, names: seq<string>)
    ensures Elements([n] + names) == {n} + Elements(names)
  {
  }

  lemma SortedCons(n: string, names: seq<string>)
    requires Sorted(names) && forall m | m in names :: Less(n, m)
    ensures Sorted([n] + names)
  {
    var longer := [n] + names;
    forall i, j | 0 <= i < j < |longer| ensures Less(longer[i], longer[j]) {
      if i == 0 { assert longer[j] in names; } else { assert Less(names[i - 1], names[j - 1]); }
    }
  }

  lemma SortedTail(names: seq<string>)
    requires Sorted(names) && names != []
    ensures Sorted(names[1..]) && (forall m | m in names[1..] :: Less(names[0], m)) && names == [names[0]] + names[1..]
  {
  }

  lemma {:induction false} InsertSorts(name: string, names: seq<string>)
    requires Sorted(names)
    ensures Sorted(Insert(name, names)) && Elements(Insert(name, names)) == Elements(names) + {name}
  {
    if names != [] {
      var rest := names[1..];
      LessIsTotal(name, names[0]);
      SortedTail(names);
      ElementsCons(names[0], rest);
      if Less(name, names[0]) {
        forall m | m in names ensures Less(name, m) {
          if m != names[0] { LessIsTransitive(name, names[0], m); }
        }
        SortedCons(name, names);
        ElementsCons(name, names);
      } else if name != names[0] {
        InsertSorts(name, rest);
        var r := Insert(name, rest);
        forall m | m in r ensures Less(names[0], m) { assert m in Elements(r); }
        SortedCons(names[0], r);
        ElementsCons(names[0], r);
      }
    }
  }

  /** A sorted listing is determined by its elements. */
  lemma {:induction false} SortedIsUnique(a: seq<string>, b: seq<string>)
    requires Sorted(a) && Sorted(b) && Elements(a) == Elements(b)
    ensures a == b
  {
    NoElements(a);
    NoElements(b);
    if a != [] {
      assert a[0] in Elements(b);
      assert b[0] in Elements(a);
      HeadIsLeast(a, b[0]);
      HeadIsLeast(b, a[0]);
      LessIsTotal(a[0], b[0]);
      TailElements(a);
      TailElements(b);
      SortedIsUnique(a[1..], b[1..]);
    }
  }

  lemma NoElements(a: seq<string>)
    ensures Elements(a) == {} <==> a == []
  {
    if a != [] { assert a[0] in Elements(a); }
  }

  lemma HeadIsLeast(a: seq<string>, n: string)
    requires Sorted(a) && a != [] && n in Elements(a)
    ensures n == a[0] || Less(a[0], n)
  {
  }

  lemma TailElements(a: seq<string>)
    requires Sorted(a) && a != []
    ensures Elements(a[1..]) == Elements(a) - {a[0]} && Sorted(a[1..])
  {
    assert a == [a[0]] + a[1..];
    forall n | n in a[1..] ensures n != a[0] {
      LessIsTotal(n, n);
    }
  }

  /** List a set of names in order. */
  method SortNames(names: set<string>) returns (r: seq<string>)
    ensures Sorted(r) && Elements(r) == names
  {
    var left := names;
    r := [];
    while left != {}
      invariant left <= names && Sorted(r) && Elements(r) == names - left
      decreases left
    {
      var n :| n in left;
      InsertSorts(n, r);
      r, left := Insert(n, r), left - {n};
    }
  }
}
