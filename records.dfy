/** Lists of `{ name, amount }` records, as the shopping page keeps both its
    catalog copy and its cart, and the three array operations it applies to
    them: `find` by name, `map` that bumps the amount of a name, and `filter`
    that drops a name. */
module Records {
  import opened Wrappers

  /** A catalog item or a cart line: the page stores both as a name and an amount. */
  datatype Item = Item(name: string, amount: int)

  /** Some record of `s` is called `name`. */
  predicate Has(s: seq<Item>, name: string) {
    exists i :: 0 <= i < |s| && s[i].name == name
  }

  /** No two records of `s` share a name. */
  predicate UniqueNames(s: seq<Item>) {
    forall i, j :: 0 <= i < j < |s| ==> s[i].name != s[j].name
  }

  /** Position of the first record called `name`: where `Array.prototype.find` stops. */
  function FirstIndex(s: seq<Item>, name: string): (r: Option<nat>)
    ensures r.None? <==> !Has(s, name)
    ensures r.Some? ==> r.value < |s| && s[r.value].name == name
    ensures r.Some? ==> forall j :: 0 <= j < r.value ==> s[j].name != name
  {
    if s == [] then None
    else if s[0].name == name then Some(0)
    else match FirstIndex(s[1..], name)
      case None => None
      case Some(k) => Some(k + 1)
  }

  /** `s.find(x => x.name === name)`: the first record called `name`, if any. */
  function Find(s: seq<Item>, name: string): (r: Option<Item>)
    ensures r.Some? <==> Has(s, name)
    ensures r.Some? ==> r.value in s && r.value.name == name
    ensures r.Some? ==> exists k :: 0 <= k < |s| && s[k] == r.value && forall j :: 0 <= j < k ==> s[j].name != name
  {
    match FirstIndex(s, name)
    case None => None
    case Some(k) => Some(s[k])
  }

  /** `s.map(x => x.name === name ? { ...x, amount: x.amount + delta } : x)`:
      every record called `name` gains `delta`, every other one is kept. */
  function Bump(s: seq<Item>, name: string, delta: int): (r: seq<Item>)
    ensures |r| == |s|
    ensures forall i :: 0 <= i < |s| ==> r[i].name == s[i].name
    ensures forall i :: 0 <= i < |s| && s[i].name != name ==> r[i] == s[i]
    ensures forall i :: 0 <= i < |s| && s[i].name == name ==> r[i].amount == s[i].amount + delta
  {
    if s == [] then []
    else
      var head := if s[0].name == name then Item(name, s[0].amount + delta) else s[0];
      [head] + Bump(s[1..], name, delta)
  }

  /** `s.filter(x => x.name !== name)`: the records not called `name`, in order. */
  function Without(s: seq<Item>, name: string): (r: seq<Item>)
    ensures forall x :: x in r <==> x in s && x.name != name
    ensures |r| <= |s|
  {
    if s == [] then []
    else if s[0].name == name then Without(s[1..], name)
    else [s[0]] + Without(s[1..], name)
  }

  /** Two lists whose names agree position by position find a name at the same place. */
  lemma {:induction false} FirstIndexDependsOnNamesOnly(s: seq<Item>, t: seq<Item>, name: string)
    requires |s| == |t|
    requires forall i :: 0 <= i < |s| ==> s[i].name == t[i].name
    ensures FirstIndex(s, name) == FirstIndex(t, name)
  {
    if s != [] && s[0].name != name {
      FirstIndexDependsOnNamesOnly(s[1..], t[1..], name);
    }
  }

  /** A name that is not in `s` is found at the end of `s + [x]`. */
  lemma {:induction false} FirstIndexAppend(s: seq<Item>, x: Item)
    requires !Has(s, x.name)
    ensures FirstIndex(s + [x], x.name) == Some(|s|)
  {
    var t := s + [x];
    assert t[|s|].name == x.name;
    assert forall j :: 0 <= j < |s| ==> t[j].name != x.name by {
      forall j | 0 <= j < |s| ensures t[j].name != x.name {
        assert t[j] == s[j];
      }
    }
  }

  /** Filtering out a name that no record has leaves the list as it is. */
  lemma {:induction false} WithoutAbsent(s: seq<Item>, name: string)
    requires !Has(s, name)
    ensures Without(s, name) == s
  {
    if s != [] {
      assert s[0].name != name;
      assert !Has(s[1..], name) by {
        forall i | 0 <= i < |s[1..]| ensures s[1..][i].name != name {
          assert s[1..][i] == s[i + 1];
        }
      }
      WithoutAbsent(s[1..], name);
      assert s == [s[0]] + s[1..];
    }
  }

  /** Filtering keeps relative order: it distributes over concatenation. */
  lemma {:induction false} WithoutConcat(a: seq<Item>, b: seq<Item>, name: string)
    ensures Without(a + b, name) == Without(a, name) + Without(b, name)
  {
    if a == [] {
      assert a + b == b;
    } else {
      assert (a + b)[0] == a[0];
      assert (a + b)[1..] == a[1..] + b;
      WithoutConcat(a[1..], b, name);
    }
  }

  /** Filtering a name out twice is the same as once. */
  lemma WithoutIdempotent(s: seq<Item>, name: string)
    ensures Without(Without(s, name), name) == Without(s, name)
  {
    var r := Without(s, name);
    assert !Has(r, name) by {
      forall i | 0 <= i < |r| ensures r[i].name != name {
        assert r[i] in r;
      }
    }
    WithoutAbsent(r, name);
  }

  /** A record whose name no record of a uniquely named list has can go in front of it. */
  lemma ConsKeepsUnique(x: Item, t: seq<Item>)
    requires UniqueNames(t)
    requires forall y :: y in t ==> y.name != x.name
    ensures UniqueNames([x] + t)
  {
    var r := [x] + t;
    forall i, j | 0 <= i < j < |r| ensures r[i].name != r[j].name {
      assert r[j] == t[j - 1];
      if i > 0 {
        assert r[i] == t[i - 1];
      }
    }
  }

  /** Filtering keeps names unique. */
  lemma {:induction false} WithoutKeepsUnique(s: seq<Item>, name: string)
    requires UniqueNames(s)
    ensures UniqueNames(Without(s, name))
  {
    if s != [] {
      var tail := s[1..];
      assert UniqueNames(tail) by {
        forall i, j | 0 <= i < j < |tail| ensures tail[i].name != tail[j].name {
          assert tail[i] == s[i + 1] && tail[j] == s[j + 1];
        }
      }
      WithoutKeepsUnique(tail, name);
      if s[0].name != name {
        forall y | y in Without(tail, name) ensures y.name != s[0].name {
          var k :| 0 <= k < |tail| && tail[k] == y;
          assert tail[k] == s[k + 1];
        }
        ConsKeepsUnique(s[0], Without(tail, name));
      }
    }
  }

  /** Bumping the amount of every record with a name, then filtering that name
      out, is the same as filtering it out directly. */
  lemma {:induction false} WithoutBump(s: seq<Item>, name: string, delta: int)
    ensures Without(Bump(s, name, delta), name) == Without(s, name)
  {
    if s != [] {
      var b := Bump(s, name, delta);
      assert b[0].name == s[0].name;
      assert s[0].name != name ==> b[0] == s[0];
      assert b[1..] == Bump(s[1..], name, delta);
      WithoutBump(s[1..], name, delta);
    }
  }
}
