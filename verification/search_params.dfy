/** The query string of the browser URL as a `URLSearchParams` list: ordered
    name/value pairs, where a name may repeat. `get`, `set` and `delete` follow
    the URLSearchParams interface of the WHATWG URL Standard; the
    percent-encoding applied by `toString()` is not modelled. */
module SearchParams {
  import opened Wrappers
  import Lists

  type Params = seq<(string, string)>

  /** `params.get(k)`: the value of the first pair named `k`. */
  function Get(ps: Params, k: string): (r: Option<string>)
    ensures r.Some? <==> exists i :: 0 <= i < |ps| && ps[i].0 == k
    ensures r.Some? ==> KeyIndex(ps, k) < |ps| && ps[KeyIndex(ps, k)] == (k, r.value)
  {
    if |ps| == 0 then None
    else if ps[0].0 == k then Some(ps[0].1)
    else
      var r := Get(ps[1..], k);
      assert forall i :: 1 <= i < |ps| ==> ps[i] == ps[1..][i - 1];
      r
  }

  /** The position of the first pair named `k`, or the length when there is
      none. */
  function KeyIndex(ps: Params, k: string): (i: nat)
    ensures i <= |ps|
    ensures i < |ps| ==> ps[i].0 == k
    ensures forall j :: 0 <= j < i ==> ps[j].0 != k
  {
    if |ps| == 0 then 0
    else if ps[0].0 == k then 0
    else 1 + KeyIndex(ps[1..], k)
  }

  /** Number of pairs named `k`. */
  function CountKey(ps: Params, k: string): nat {
    if |ps| == 0 then 0
    else (if ps[0].0 == k then 1 else 0) + CountKey(ps[1..], k)
  }

  /** `params.delete(k)`: removes every pair named `k`; the other pairs keep
      their order. */
  function Delete(ps: Params, k: string): (r: Params)
    ensures Get(r, k) == None && CountKey(r, k) == 0
    ensures forall k' :: k' != k ==> Get(r, k') == Get(ps, k')
    ensures forall k' :: k' != k ==> CountKey(r, k') == CountKey(ps, k')
    ensures Lists.IsSubsequence(r, ps)
  {
    if |ps| == 0 then []
    else if ps[0].0 == k then Delete(ps[1..], k)
    else [ps[0]] + Delete(ps[1..], k)
  }

  /** `params.set(k, v)`: the first pair named `k` takes the value `v` and the
      other pairs named `k` are removed; when there is none, (k, v) is appended. */
  function Set(ps: Params, k: string, v: string): (r: Params)
    ensures Get(r, k) == Some(v) && CountKey(r, k) == 1
    ensures forall k' :: k' != k ==> Get(r, k') == Get(ps, k')
    ensures Delete(r, k) == Delete(ps, k)
    ensures CountKey(ps, k) == 0 ==> r == ps + [(k, v)]
    ensures KeyIndex(ps, k) < |ps| ==> KeyIndex(r, k) == KeyIndex(ps, k) && r[..KeyIndex(ps, k)] == ps[..KeyIndex(ps, k)]
  {
    if |ps| == 0 then [(k, v)]
    else if ps[0].0 == k then
      DeleteTwice(ps[1..], k);
      [(k, v)] + Delete(ps[1..], k)
    else
      var t := Set(ps[1..], k, v);
      assert [ps[0]] + ps[1..] == ps;
      SetBehindOtherGet(ps[0], ps[1..], k, t);
      SetBehindOtherAppend(ps[0], ps[1..], k, v, t);
      SetBehindOtherPosition(ps[0], ps[1..], k, t);
      Cons(ps[0], t, k);
      Cons(ps[0], ps[1..], k);
      [ps[0]] + t
  }

  /** Behind a head pair of another name, lookups in the tail `t` carry over
      to the whole list. */
  lemma SetBehindOtherGet(p: (string, string), ps: Params, k: string, t: Params)
    requires p.0 != k
    requires forall k' :: k' != k ==> Get(t, k') == Get(ps, k')
    ensures Get([p] + t, k) == Get(t, k) && CountKey([p] + t, k) == CountKey(t, k)
    ensures forall k' :: k' != k ==> Get([p] + t, k') == Get([p] + ps, k')
  {
    Cons(p, t, k);
    forall k' | k' != k
      ensures Get([p] + t, k') == Get([p] + ps, k')
    {
      Cons(p, t, k');
      Cons(p, ps, k');
    }
  }

  /** Behind a head pair of another name, appending to the tail appends to
      the whole list. */
  lemma SetBehindOtherAppend(p: (string, string), ps: Params, k: string, v: string, t: Params)
    requires p.0 != k
    requires CountKey(ps, k) == 0 ==> t == ps + [(k, v)]
    ensures CountKey([p] + ps, k) == 0 ==> [p] + t == [p] + ps + [(k, v)]
  {
    Cons(p, ps, k);
  }

  /** Behind a head pair of another name, the first pair named `k` keeps its
      position and everything before it. */
  lemma SetBehindOtherPosition(p: (string, string), ps: Params, k: string, t: Params)
    requires p.0 != k
    requires KeyIndex(ps, k) < |ps| ==> KeyIndex(t, k) == KeyIndex(ps, k) && t[..KeyIndex(ps, k)] == ps[..KeyIndex(ps, k)]
    ensures KeyIndex([p] + ps, k) < |[p] + ps| ==>
      KeyIndex([p] + t, k) == KeyIndex([p] + ps, k) && ([p] + t)[..KeyIndex([p] + ps, k)] == ([p] + ps)[..KeyIndex([p] + ps, k)]
  {
    if KeyIndex(ps, k) < |ps| {
      var i := KeyIndex(ps, k);
      assert ([p] + t)[1..] == t && ([p] + ps)[1..] == ps;
      assert ([p] + t)[..i + 1] == [p] + t[..i];
      assert ([p] + ps)[..i + 1] == [p] + ps[..i];
    }
  }

  /** One step of `get`, `delete`, the count and the first index at the head
      of a list. */
  lemma Cons(p: (string, string), ps: Params, k: string)
    ensures Get([p] + ps, k) == if p.0 == k then Some(p.1) else Get(ps, k)
    ensures CountKey([p] + ps, k) == (if p.0 == k then 1 else 0) + CountKey(ps, k)
    ensures Delete([p] + ps, k) == if p.0 == k then Delete(ps, k) else [p] + Delete(ps, k)
    ensures KeyIndex([p] + ps, k) == if p.0 == k then 0 else 1 + KeyIndex(ps, k)
  {
    assert ([p] + ps)[0] == p && ([p] + ps)[1..] == ps;
  }

  /** Deleting a name twice is the same as deleting it once. */
  lemma {:induction false} DeleteTwice(ps: Params, k: string)
    ensures Delete(Delete(ps, k), k) == Delete(ps, k)
  {
    if |ps| > 0 {
      DeleteTwice(ps[1..], k);
    }
  }
}
