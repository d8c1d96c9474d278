/** The part of `URLSearchParams` the program uses: an ordered list of
    name/value pairs with `set` and `get` as the WHATWG URL Standard defines
    them. Percent-encoding and serialisation are not modelled. */
module UrlParams {
  import opened Optional
  import opened Seqs

  datatype Param = Param(name: string, value: string)

  function Names(ps: seq<Param>): (r: seq<string>)
    ensures |r| == |ps| && forall i :: 0 <= i < |ps| ==> r[i] == ps[i].name
  {
    seq(|ps|, i requires 0 <= i < |ps| => ps[i].name)
  }

  function NameIsNot(name: string): Param -> bool
  {
    (p: Param) => p.name != name
  }

  /** `params.set(name, value)`: the first pair with the name gets the value
      and every later pair with the name is removed; when there is no such
      pair, the new pair is appended. */
  function Set(ps: seq<Param>, name: string, value: string): seq<Param>
    decreases |ps|
  {
    if |ps| == 0 then [Param(name, value)]
    else if ps[0].name == name then [Param(name, value)] + Filter(ps[1..], NameIsNot(name))
    else [ps[0]] + Set(ps[1..], name, value)
  }

  /** `params.get(name)`: the value of the first pair with the name. */
  function Get(ps: seq<Param>, name: string): Option<string>
    decreases |ps|
  {
    if |ps| == 0 then None
    else if ps[0].name == name then Some(ps[0].value)
    else Get(ps[1..], name)
  }

  /** `params.get(name) || ''` */
  function GetOrEmpty(ps: seq<Param>, name: string): string
  {
    Get(ps, name).GetOr("")
  }

  /** `get` after `set` of the same name reads the value just set. */
  lemma {:induction false} GetAfterSet(ps: seq<Param>, name: string, value: string)
    ensures Get(Set(ps, name, value), name) == Some(value)
    decreases |ps|
  {
    if |ps| > 0 && ps[0].name != name {
      GetAfterSet(ps[1..], name, value);
    }
  }

  /** Removing the pairs of one name does not change what `get` reads for
      another. */
  lemma {:induction false} GetIgnoresRemoval(ps: seq<Param>, name: string, other: string)
    requires other != name
    ensures Get(Filter(ps, NameIsNot(name)), other) == Get(ps, other)
    decreases |ps|
  {
    if |ps| > 0 {
      GetIgnoresRemoval(ps[1..], name, other);
    }
  }

  /** `set` of one name does not change what `get` reads for another. */
  lemma {:induction false} GetOtherAfterSet(ps: seq<Param>, name: string, value: string, other: string)
    requires other != name
    ensures Get(Set(ps, name, value), other) == Get(ps, other)
    decreases |ps|
  {
    if |ps| > 0 {
      if ps[0].name == name {
        GetIgnoresRemoval(ps[1..], name, other);
      } else {
        GetOtherAfterSet(ps[1..], name, value, other);
      }
    }
  }

  /** On a list without the name, `set` appends. */
  lemma {:induction false} SetAppendsNewName(ps: seq<Param>, name: string, value: string)
    requires name !in Names(ps)
    ensures Set(ps, name, value) == ps + [Param(name, value)]
    decreases |ps|
  {
    if |ps| > 0 {
      assert ps[0].name == Names(ps)[0];
      assert Names(ps[1..]) == Names(ps)[1..];
      SetAppendsNewName(ps[1..], name, value);
      assert ps == [ps[0]] + ps[1..];
    }
  }

  /** `get` of a name no pair has finds nothing. */
  lemma {:induction false} GetMissing(ps: seq<Param>, name: string)
    requires forall p :: p in ps ==> p.name != name
    ensures Get(ps, name) == None
    decreases |ps|
  {
    if |ps| > 0 {
      assert ps[0] in ps;
      GetMissing(ps[1..], name);
    }
  }

  /** `get` on two lists one after the other reads the first list first. */
  lemma {:induction false} GetConcat(a: seq<Param>, b: seq<Param>, name: string)
    ensures Get(a + b, name) == if Get(a, name).Some? then Get(a, name) else Get(b, name)
    decreases |a|
  {
    if |a| > 0 {
      assert (a + b)[0] == a[0];
      assert (a + b)[1..] == a[1..] + b;
      GetConcat(a[1..], b, name);
    } else {
      assert a + b == b;
    }
  }
}
