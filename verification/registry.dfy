/**
 The wallet registry: a JavaScript `Map` from wallet name to address, kept in
 insertion order. It is modelled as a sequence of entries whose names are unique.
 */
module Registry {
  import opened Options

  datatype Entry = Entry(name: string, address: string)

  type Wallets = seq<Entry>

  /** The invariant of a `Map`: no name occurs twice. */
  predicate UniqueNames(w: Wallets) {
    forall i, j | 0 <= i < j < |w| :: w[i].name != w[j].name
  }

  function Names(w: Wallets): (ns: seq<string>)
    ensures |ns| == |w| && forall i | 0 <= i < |w| :: ns[i] == w[i].name
  {
    seq(|w|, i requires 0 <= i < |w| => w[i].name)
  }

  function Addresses(w: Wallets): (addrs: seq<string>)
    ensures |addrs| == |w| && forall i | 0 <= i < |w| :: addrs[i] == w[i].address
  {
    seq(|w|, i requires 0 <= i < |w| => w[i].address)
  }

  /** Position of the first entry named `name`, if any. */
  function IndexOf(w: Wallets, name: string): (r: Option<nat>)
    ensures r.Some? ==> r.value < |w| && w[r.value].name == name
    ensures r.Some? ==> forall k | 0 <= k < r.value :: w[k].name != name
    ensures r.None? <==> forall k | 0 <= k < |w| :: w[k].name != name
  {
    if |w| == 0 then None
    else if w[0].name == name then Some(0)
    else match IndexOf(w[1..], name)
      case None => None
      case Some(k) => Some(k + 1)
  }

  /** `wallets.has(name)`. */
  predicate Has(w: Wallets, name: string) {
    IndexOf(w, name).Some?
  }

  /** `wallets.get(name)`. */
  function Get(w: Wallets, name: string): (r: Option<string>)
    ensures r.Some? <==> Has(w, name)
  {
    match IndexOf(w, name)
    case Some(k) => Some(w[k].address)
    case None => None
  }

  /** Lookup depends only on the names, position by position. */
  lemma {:induction false} IndexOfNames(a: Wallets, b: Wallets, name: string)
    requires |a| == |b| && forall k | 0 <= k < |a| :: a[k].name == b[k].name
    ensures IndexOf(a, name) == IndexOf(b, name)
    decreases |a|
  {
    if |a| > 0 {
      assert forall k | 0 <= k < |a| - 1 :: a[1..][k].name == b[1..][k].name by {
        assert forall k | 0 <= k < |a| - 1 :: a[1..][k] == a[k + 1] && b[1..][k] == b[k + 1];
      }
      IndexOfNames(a[1..], b[1..], name);
    }
  }

  /** A lookup in `w + [e]` finds the first match in `w`, else `e` when it matches. */
  lemma {:induction false} IndexOfSnoc(w: Wallets, e: Entry, name: string)
    ensures IndexOf(w + [e], name) ==
              if Has(w, name) then IndexOf(w, name)
              else if e.name == name then Some(|w|)
              else None
    decreases |w|
  {
    if |w| > 0 {
      SnocTail(w, e);
      IndexOfSnoc(w[1..], e, name);
    }
  }

  lemma SnocTail<T>(xs: seq<T>, x: T)
    requires |xs| > 0
    ensures (xs + [x])[0] == xs[0] && (xs + [x])[1..] == xs[1..] + [x]
  {
  }

  /** In a registry with unique names each entry is found under its own name. */
  lemma GetEntry(w: Wallets, i: nat)
    requires UniqueNames(w) && i < |w|
    ensures IndexOf(w, w[i].name) == Some(i)
    ensures Get(w, w[i].name) == Some(w[i].address)
  {
  }

  /** `wallets.set(name, address)`: a new name is appended at the end of the insertion
      order; a present name keeps its position and takes the new address. The bot only
      sets names it has just found absent (index.js:103-106), so it never takes the
      present-name branch; that branch completes `Map.set` so the lookup laws hold for
      every call. */
  function Set(w: Wallets, name: string, address: string): (r: Wallets)
    ensures Get(r, name) == Some(address)
    ensures forall n | n != name :: Get(r, n) == Get(w, n)
    ensures UniqueNames(w) ==> UniqueNames(r)
    ensures Has(w, name) ==> Names(r) == Names(w)
    ensures !Has(w, name) ==> Names(r) == Names(w) + [name] && r[..|w|] == w
  {
    match IndexOf(w, name)
    case Some(k) =>
      SetReplace(w, name, address, k);
      w[k := Entry(name, address)]
    case None =>
      SetAppend(w, name, address);
      w + [Entry(name, address)]
  }

  lemma SetReplace(w: Wallets, name: string, address: string, k: nat)
    requires IndexOf(w, name) == Some(k)
    ensures var r := w[k := Entry(name, address)];
            && Get(r, name) == Some(address)
            && (forall n | n != name :: Get(r, n) == Get(w, n))
            && (UniqueNames(w) ==> UniqueNames(r))
            && Names(r) == Names(w)
  {
    var r := w[k := Entry(name, address)];
    assert forall j | 0 <= j < |w| :: r[j].name == w[j].name;
    assert Names(r) == Names(w);
    IndexOfNames(r, w, name);
    SetLookups(w, r, name);
  }

  lemma SetAppend(w: Wallets, name: string, address: string)
    requires !Has(w, name)
    ensures var r := w + [Entry(name, address)];
            && Get(r, name) == Some(address)
            && (forall n | n != name :: Get(r, n) == Get(w, n))
            && (UniqueNames(w) ==> UniqueNames(r))
            && Names(r) == Names(w) + [name] && r[..|w|] == w
  {
    var r := w + [Entry(name, address)];
    assert r[..|w|] == w;
    forall n
      ensures IndexOf(r, n) == if n == name then Some(|w|) else IndexOf(w, n)
    {
      IndexOfSnoc(w, Entry(name, address), n);
    }
    assert forall k | 0 <= k < |w| :: r[k] == w[k];
  }

  lemma SetLookups(w: Wallets, r: Wallets, name: string)
    requires |r| == |w| && forall k | 0 <= k < |w| :: r[k].name == w[k].name
    requires forall k | 0 <= k < |w| && w[k].name != name :: r[k] == w[k]
    ensures forall n | n != name :: Get(r, n) == Get(w, n)
  {
    forall n | n != name
      ensures Get(r, n) == Get(w, n)
    {
      IndexOfNames(r, w, n);
    }
  }

  /** `wallets.delete(name)`: drops the entries named `name`, keeping the others in order. */
  function Delete(w: Wallets, name: string): (r: Wallets)
    ensures |r| <= |w|
    ensures forall e | e in r :: e in w && e.name != name
    decreases |w|
  {
    if |w| == 0 then []
    else if w[0].name == name then Delete(w[1..], name)
    else [w[0]] + Delete(w[1..], name)
  }

  /** A lookup skips a first entry with another name. */
  lemma GetTail(w: Wallets, n: string)
    requires |w| > 0 && w[0].name != n
    ensures IndexOf(w, n).Some? <==> IndexOf(w[1..], n).Some?
    ensures Get(w, n) == Get(w[1..], n)
  {
  }

  /** After `delete(name)` the name is absent. */
  lemma DeleteRemovesName(w: Wallets, name: string)
    ensures !Has(Delete(w, name), name)
  {
    var r := Delete(w, name);
    assert forall k | 0 <= k < |r| :: r[k] in r;
  }

  /** `delete(name)` leaves the lookup of every other name unchanged. */
  lemma {:induction false} DeleteKeepsOthers(w: Wallets, name: string, n: string)
    requires n != name
    ensures Get(Delete(w, name), n) == Get(w, n)
    decreases |w|
  {
    if |w| > 0 {
      DeleteKeepsOthers(w[1..], name, n);
      var d := Delete(w[1..], name);
      if w[0].name == name {
        GetTail(w, n);
      } else if w[0].name != n {
        var r := [w[0]] + d;
        assert r[1..] == d;
        GetTail(r, n);
        GetTail(w, n);
      }
    }
  }

  /** `delete` keeps the names unique. */
  lemma {:induction false} DeleteUnique(w: Wallets, name: string)
    requires UniqueNames(w)
    ensures UniqueNames(Delete(w, name))
    decreases |w|
  {
    if |w| > 0 {
      DeleteUnique(w[1..], name);
      if w[0].name != name {
        var d := Delete(w[1..], name);
        forall e | e in d
          ensures e.name != w[0].name
        {
          var j :| 0 <= j < |w[1..]| && w[1..][j] == e;
          assert w[j + 1] == e;
        }
        var r := [w[0]] + d;
        forall i, j | 0 <= i < j < |r|
          ensures r[i].name != r[j].name
        {
          assert r[j] == d[j - 1] && d[j - 1] in d;
          if i > 0 {
            assert r[i] == d[i - 1];
          }
        }
      }
    }
  }

  /** Deleting a name that is not present changes nothing. */
  lemma {:induction false} DeleteAbsent(w: Wallets, name: string)
    requires !Has(w, name)
    ensures Delete(w, name) == w
    decreases |w|
  {
    if |w| > 0 {
      assert !Has(w[1..], name) by {
        assert forall k | 0 <= k < |w[1..]| :: w[1..][k] == w[k + 1];
      }
      DeleteAbsent(w[1..], name);
    }
  }

  /** A registry with unique names stays so without its first entry, and the first
      name is not found there. */
  lemma UniqueTail(w: Wallets)
    requires UniqueNames(w) && |w| > 0
    ensures UniqueNames(w[1..])
    ensures !Has(w[1..], w[0].name)
  {
    assert forall k | 0 <= k < |w[1..]| :: w[1..][k] == w[k + 1];
  }

  /** On a registry with unique names, deleting a present name removes exactly that
      entry and keeps the relative order of the rest. */
  lemma {:induction false} DeleteAt(w: Wallets, name: string, k: nat)
    requires UniqueNames(w) && IndexOf(w, name) == Some(k)
    ensures Delete(w, name) == w[..k] + w[k + 1..]
    ensures |Delete(w, name)| == |w| - 1
    decreases |w|
  {
    UniqueTail(w);
    if k == 0 {
      DeleteAbsent(w[1..], name);
      assert w[..0] + w[1..] == w[1..];
    } else {
      assert IndexOf(w[1..], name) == Some(k - 1);
      DeleteAt(w[1..], name, k - 1);
      ConsSlices(w, k);
    }
  }

  lemma ConsSlices(w: Wallets, k: nat)
    requires 0 < k < |w|
    ensures [w[0]] + (w[1..][..k - 1] + w[1..][k..]) == w[..k] + w[k + 1..]
  {
    assert w[..k] == [w[0]] + w[1..][..k - 1];
    assert w[k + 1..] == w[1..][k..];
  }
}
