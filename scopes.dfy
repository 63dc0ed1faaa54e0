/** The JavaScript `Map<string, Variable>` that both environments keep, as
    an association list in insertion order (the order `Map.forEach` visits),
    and the chain of enclosing scopes, innermost first. */
module Scopes {
  import opened Wrappers
  import opened VTypes

  type Scope = seq<(string, Variable)>

  /** A map holds each key once. */
  predicate UniqueNames(s: Scope) {
    forall i, j :: 0 <= i < j < |s| ==> s[i].0 != s[j].0
  }

  /** `Map.get`: the entry for `name`, if any. */
  function Find(s: Scope, name: string): (r: Option<Variable>)
    ensures r.Some? <==> exists i :: 0 <= i < |s| && s[i].0 == name
    ensures r.Some? ==> (name, r.value) in s
  {
    if s == [] then None
    else if s[0].0 == name then Some(s[0].1)
    else Find(s[1..], name)
  }

  /** `Map.has`. */
  predicate Has(s: Scope, name: string) {
    Find(s, name).Some?
  }

  /** `Map.set` of a key the map does not hold: the entry goes last. */
  function Put(s: Scope, name: string, v: Variable): (r: Scope)
    requires !Has(s, name)
    ensures UniqueNames(s) ==> UniqueNames(r)
    ensures Find(r, name) == Some(v)
    ensures forall n :: n != name ==> Find(r, n) == Find(s, n)
  {
    PutFind(s, name, v);
    s + [(name, v)]
  }

  lemma {:induction false} PutFind(s: Scope, name: string, v: Variable)
    requires !Has(s, name)
    ensures Find(s + [(name, v)], name) == Some(v)
    ensures forall n :: n != name ==> Find(s + [(name, v)], n) == Find(s, n)
    decreases |s|
  {
    if s != [] {
      PutFind(s[1..], name, v);
      assert (s + [(name, v)])[1..] == s[1..] + [(name, v)];
    }
  }

  /** `Map.delete`: every other entry stays, in its order. */
  function Delete(s: Scope, name: string): (r: Scope)
    ensures |r| <= |s|
    ensures Find(r, name).None?
    ensures forall n :: n != name ==> Find(r, n) == Find(s, n)
    ensures UniqueNames(s) ==> UniqueNames(r)
    ensures forall e :: e in r ==> e in s
  {
    if s == [] then []
    else if s[0].0 == name then Delete(s[1..], name)
    else
      var tail := Delete(s[1..], name);
      assert UniqueNames(s) ==> forall e :: e in tail ==> e.0 != s[0].0 by {
        if UniqueNames(s) {
          forall e | e in tail ensures e.0 != s[0].0 {
            var j :| 0 <= j < |s[1..]| && s[1..][j] == e;
            assert s[j + 1] == e;
          }
        }
      }
      [s[0]] + tail
  }

  /** The addresses of a scope's variables, in insertion order. */
  function Addrs(s: Scope): (r: seq<nat>)
    ensures |r| == |s|
    ensures forall i :: 0 <= i < |s| ==> r[i] == s[i].1.addr
  {
    if s == [] then [] else [s[0].1.addr] + Addrs(s[1..])
  }

  /** Some scope of the chain holds `name`. */
  function ChainHas(chain: seq<Scope>, name: string): (b: bool)
    ensures b <==> exists k :: 0 <= k < |chain| && Has(chain[k], name)
  {
    if chain == [] then false
    else Has(chain[0], name) || ChainHas(chain[1..], name)
  }

  /** The addresses of every scope of the chain, innermost scope first. */
  function ChainAddrs(chain: seq<Scope>): (r: seq<nat>)
    ensures forall a :: a in r <==> exists k :: 0 <= k < |chain| && a in Addrs(chain[k])
  {
    if chain == [] then [] else Addrs(chain[0]) + ChainAddrs(chain[1..])
  }

  /** The number of variables in the chain. */
  function ChainSize(chain: seq<Scope>): (n: nat)
    ensures n == |ChainAddrs(chain)|
  {
    if chain == [] then 0 else |chain[0]| + ChainSize(chain[1..])
  }

  /** `Math.max` of a non-empty list; 0 for the empty one. */
  function Max(s: seq<nat>): (m: nat)
    ensures forall i :: 0 <= i < |s| ==> s[i] <= m
    ensures s != [] ==> m in s
  {
    if s == [] then 0
    else if |s| == 1 then s[0]
    else
      var rest := Max(s[1..]);
      if s[0] >= rest then s[0] else rest
  }
}
