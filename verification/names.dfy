/** The order in which Rust's `BTreeMap<String, _>` and `BTreeSet<String>` list their keys. */
module Names {
  // UTF-8 byte order, which is code point order.
  predicate Less(a: string, b: string) {
    b != "" && (a == "" || a[0] < b[0] || (a[0] == b[0] && Less(a[1..], b[1..])))
  }

  lemma {:induction false} LessTotal(a: string, b: string)
    ensures !(Less(a, b) && Less(b, a))
    ensures a == b || Less(a, b) || Less(b, a)
    ensures a == b ==> !Less(a, b)
  {
    if a != "" && b != "" && a[0] == b[0] {
      LessTotal(a[1..], b[1..]);
      assert a == [a[0]] + a[1..] && b == [b[0]] + b[1..];
    }
  }

  lemma {:induction false} LessTransitive(a: string, b: string, c: string)
    requires Less(a, b) && Less(b, c)
    ensures Less(a, c)
  {
    if a != "" && a[0] == b[0] == c[0] {
      LessTransitive(a[1..], b[1..], c[1..]);
    }
  }

  // The first place where they differ decides, or the shorter one comes first.
  lemma {:induction false} LessExactly(a: string, b: string)
    ensures Less(a, b) <==>
            exists k: nat :: k <= |a| && k < |b| && a[..k] == b[..k] && (k == |a| || a[k] as int < b[k] as int)
  {
    if a != "" && b != "" && a[0] == b[0] {
      LessExactly(a[1..], b[1..]);
      if k: nat :| k <= |a[1..]| && k < |b[1..]| && a[1..][..k] == b[1..][..k] &&
                   (k == |a[1..]| || a[1..][k] as int < b[1..][k] as int) {
        assert a[..k + 1] == [a[0]] + a[1..][..k] && b[..k + 1] == [b[0]] + b[1..][..k];
      }
      if k: nat :| k <= |a| && k < |b| && a[..k] == b[..k] && (k == |a| || a[k] as int < b[k] as int) {
        if k > 0 {
          assert a[1..][..k - 1] == a[..k][1..] && b[1..][..k - 1] == b[..k][1..];
        }
      }
    } else if Less(a, b) {
      assert a[..0] == b[..0];
    } else {
      forall k: nat | 0 < k <= |a| && k < |b| && a[0] != b[0]
        ensures a[..k] != b[..k]
      {
        assert a[..k][0] == a[0] && b[..k][0] == b[0];
      }
    }
  }

  ghost predicate Ascending(names: seq<string>) {
    forall i, j :: 0 <= i < j < |names| ==> Less(names[i], names[j])
  }

  ghost predicate Lists(names: seq<string>, keys: set<string>) {
    Ascending(names) && forall n :: n in names <==> n in keys
  }

  // An ascending list with one more name in its place.
  function Inserted(names: seq<string>, name: string): (longer: seq<string>) {
    if names == [] || Less(name, names[0]) then [name] + names
    else [names[0]] + Inserted(names[1..], name)
  }

  lemma {:induction false} InsertedLists(names: seq<string>, name: string)
    requires Ascending(names) && name !in names
    ensures Ascending(Inserted(names, name))
    ensures forall n :: n in Inserted(names, name) <==> n in names || n == name
  {
    if names == [] {
    } else if Less(name, names[0]) {
      forall k | 0 < k < |names|
        ensures Less(name, names[k])
      {
        LessTransitive(name, names[0], names[k]);
      }
    } else {
      LessTotal(name, names[0]);
      InsertedLists(names[1..], name);
      var rest := Inserted(names[1..], name);
      assert names == [names[0]] + names[1..];
      forall k | 0 <= k < |rest|
        ensures Less(names[0], rest[k])
      {
        assert rest[k] in rest;
      }
    }
  }

  // The keys of a `BTreeSet` in iteration order.
  method SortNames(keys: set<string>) returns (names: seq<string>)
    ensures Lists(names, keys)
  {
    names := [];
    var rest := keys;
    while rest != {}
      invariant Ascending(names)
      invariant rest <= keys
      invariant forall n :: n in names <==> n in keys && n !in rest
      decreases rest
    {
      var name :| name in rest;
      InsertedLists(names, name);
      names := Inserted(names, name);
      rest := rest - {name};
    }
  }

  ghost function Sorted(keys: set<string>): (names: seq<string>)
    ensures Lists(names, keys)
  {
    SortedExists(keys);
    var names :| Lists(names, keys);
    names
  }

  lemma {:induction false} SortedExists(keys: set<string>)
    ensures exists names :: Lists(names, keys)
  {
    if keys == {} {
      assert Lists([], keys);
    } else {
      var name :| name in keys;
      SortedExists(keys - {name});
      var names :| Lists(names, keys - {name});
      InsertedLists(names, name);
      assert Lists(Inserted(names, name), keys);
    }
  }

  // An ascending list is determined by its members, so iteration order is a function of the keys.
  lemma {:induction false} ListedOnce(a: seq<string>, b: seq<string>)
    requires Ascending(a) && Ascending(b)
    requires forall n :: n in a <==> n in b
    ensures a == b
  {
    if a == [] {
      assert forall i :: 0 <= i < |b| ==> b[i] in b;
    } else {
      assert a[0] in b && b != [];
      assert b[0] in a;
      var i :| 0 <= i < |a| && a[i] == b[0];
      var j :| 0 <= j < |b| && b[j] == a[0];
      LessTotal(a[0], b[0]);
      assert a[0] == b[0];
      assert a == [a[0]] + a[1..] && b == [b[0]] + b[1..];
      forall n
        ensures n in a[1..] <==> n in b[1..]
      {
        HeadNotInTail(a);
        HeadNotInTail(b);
        assert n in a <==> n == a[0] || n in a[1..];
        assert n in b <==> n == b[0] || n in b[1..];
      }
      ListedOnce(a[1..], b[1..]);
    }
  }

  lemma HeadNotInTail(names: seq<string>)
    requires Ascending(names) && names != []
    ensures names[0] !in names[1..]
  {
    LessTotal(names[0], names[0]);
  }

  lemma NewName(names: seq<string>, i: nat)
    requires Ascending(names) && i < |names|
    ensures names[i] !in names[..i]
  {
    LessTotal(names[i], names[i]);
  }

  // The names before a listed one are the smaller ones.
  lemma Earlier(names: seq<string>, i: nat, w: string)
    requires Ascending(names) && i < |names| && w in names
    ensures w in names[..i] <==> Less(w, names[i])
  {
    var j :| 0 <= j < |names| && names[j] == w;
    LessTotal(w, names[i]);
    if w in names[..i] {
      var k :| 0 <= k < i && names[k] == w;
    }
  }
}
