/** The static environment of runtime/environment.ts, which the compiler
    uses: a map from names to variables, plus the enclosing environments.

    The functions on `(vars, parents)` values are what `Codegen.Gen` uses;
    the class `Environment` is the object the compiler threads through, and
    its methods are stated in terms of those functions. */
module Env {
  import opened Wrappers
  import opened VTypes
  import opened Scopes

  datatype EnvError = AlreadyExists(name: string) | DoesNotExist(name: string)

  /** The values from the first one up to the last one that are missing
      from `input`, in the order of the source's `missingNumbers` loop: the
      cursor `i` moves along `input` each time the target is found there. */
  function MissingFrom(input: seq<nat>, i: nat, t: nat): seq<nat>
    requires input != []
    decreases input[|input| - 1] + 1 - t
  {
    if t > input[|input| - 1] then []
    else if i < |input| && input[i] == t then MissingFrom(input, i + 1, t + 1)
    else [t] + MissingFrom(input, i, t + 1)
  }

  /** `missingNumbers`. On an empty list the loop test compares `undefined`,
      which is false, so the result is empty. */
  function Missing(input: seq<nat>): seq<nat> {
    if input == [] then [] else MissingFrom(input, 0, input[0])
  }

  method MissingNumbers(input: seq<nat>) returns (result: seq<nat>)
    ensures result == Missing(input)
  {
    result := [];
    if input == [] {
      return;
    }
    var i, t := 0, input[0];
    while t <= input[|input| - 1]
      invariant result + MissingFrom(input, i, t) == Missing(input)
      decreases input[|input| - 1] as int + 1 - t
    {
      if !(i < |input| && input[i] == t) {
        result := result + [t];
      } else {
        i := i + 1;
      }
      t := t + 1;
    }
  }

  predicate StrictlyIncreasing(s: seq<nat>) {
    forall i, j :: 0 <= i < j < |s| ==> s[i] < s[j]
  }

  /** On a strictly increasing list, `missingNumbers` lists exactly the
      values between the first and the last element that are not in it. */
  lemma MissingOfIncreasing(input: seq<nat>)
    requires StrictlyIncreasing(input) && input != []
    ensures forall x :: x in Missing(input) <==> input[0] <= x <= input[|input| - 1] && x !in input
    ensures StrictlyIncreasing(Missing(input))
  {
    MissingFromOfIncreasing(input, 0, input[0]);
  }

  lemma {:induction false} MissingFromOfIncreasing(input: seq<nat>, i: nat, t: nat)
    requires StrictlyIncreasing(input) && input != []
    requires i <= |input|
    requires forall j :: 0 <= j < i ==> input[j] < t
    requires forall j :: i <= j < |input| ==> input[j] >= t
    ensures forall x :: x in MissingFrom(input, i, t) <==> t <= x <= input[|input| - 1] && x !in input
    ensures StrictlyIncreasing(MissingFrom(input, i, t))
    decreases input[|input| - 1] + 1 - t
  {
    if t <= input[|input| - 1] {
      if i < |input| && input[i] == t {
        MissingFromOfIncreasing(input, i + 1, t + 1);
      } else {
        assert t !in input by {
          forall j | 0 <= j < |input| ensures input[j] != t {
            if i <= j {
              assert i < |input|;
              assert input[i] > t;
              assert j == i || input[j] > input[i];
            }
          }
        }
        MissingFromOfIncreasing(input, i, t + 1);
        var tail := MissingFrom(input, i, t + 1);
        assert forall j :: 0 < j < |[t] + tail| ==> ([t] + tail)[j] == tail[j - 1];
        assert forall j :: 0 <= j < |tail| ==> tail[j] in tail;
      }
    }
  }

  /** The address `findFree` returns for the list of addresses in use: the
      number of addresses, or a value between the first and the last one. */
  function FirstGap(addrs: seq<nat>): (r: nat)
    ensures addrs == [] ==> r == 0
    ensures r != |addrs| ==> addrs != [] && addrs[0] <= r <= addrs[|addrs| - 1]
  {
    var missing := Missing(addrs);
    if |missing| == 0 then |addrs|
    else
      MissingFromBounds(addrs, 0, addrs[0]);
      assert missing[0] in missing;
      missing[0]
  }

  /** Every value `missingNumbers` reports from target `t` on lies between
      `t` and the last element. */
  lemma {:induction false} MissingFromBounds(input: seq<nat>, i: nat, t: nat)
    requires input != []
    ensures forall x :: x in MissingFrom(input, i, t) ==> t <= x <= input[|input| - 1]
    decreases input[|input| - 1] + 1 - t
  {
    if t <= input[|input| - 1] {
      MissingFromBounds(input, if i < |input| && input[i] == t then i + 1 else i, t + 1);
    }
  }

  /** `findFree` as written can hand out an address that is in use: after
      `word a = 0; word b = 0; del a;` the only address left is b's, 1, which
      has no gap before it, so the length of the list, 1, is returned; and
      when addresses are not in increasing order, as in [0, 2, 1] after
      `word a = 0; word b = 0; word c = 0; del b; word d = 0;`, the cursor of
      `missingNumbers` falls behind and d's 1 is reported missing. */
  lemma FirstGapCollides()
    ensures FirstGap([1]) == 1 && 1 in [1]
    ensures FirstGap([0, 2, 1]) == 1 && 1 in [0, 2, 1]
  {
    assert Missing([1]) == [];
    assert MissingFrom([0, 2, 1], 2, 2) == [];
    assert MissingFrom([0, 2, 1], 1, 1) == [1];
  }

  /** The address intended for a new variable: the least one not in use. */
  function LowestFree(addrs: seq<nat>): (r: nat)
    ensures r !in addrs
    ensures forall a: nat :: a < r ==> a in addrs
  {
    LowestFreeFrom(addrs, 0)
  }

  function LowestFreeFrom(addrs: seq<nat>, a: nat): (r: nat)
    ensures a <= r && r !in addrs
    ensures forall b: nat :: a <= b < r ==> b in addrs
    decreases Max(addrs) + 1 - a
  {
    if a in addrs then LowestFreeFrom(addrs, a + 1) else a
  }

  /** The least free address is the only address that is free and has no
      free address below it. */
  lemma LowestFreeUnique(addrs: seq<nat>, x: nat)
    requires x !in addrs
    requires forall a: nat :: a < x ==> a in addrs
    ensures x == LowestFree(addrs)
  {
  }

  /** Where the addresses are 0, 1, 2, ... with gaps, in increasing order,
      `findFree` does return the least free address. */
  lemma FirstGapOfIncreasing(addrs: seq<nat>)
    requires StrictlyIncreasing(addrs)
    requires addrs == [] || addrs[0] == 0
    ensures FirstGap(addrs) == LowestFree(addrs)
  {
    if addrs != [] {
      MissingOfIncreasing(addrs);
      var missing := Missing(addrs);
      if |missing| == 0 {
        forall k | 0 <= k < |addrs| ensures addrs[k] == k {
          IndexIsValue(addrs, k);
        }
        LowestFreeUnique(addrs, |addrs|);
      } else {
        var g := missing[0];
        assert g in missing;
        forall a: nat | a < g ensures a in addrs {
          assert a !in missing by {
            forall k | 0 <= k < |missing| ensures missing[k] != a {
              assert k == 0 || missing[0] < missing[k];
            }
          }
        }
        LowestFreeUnique(addrs, g);
      }
    }
  }

  /** With no gap up to the last element, the k-th address is k. */
  lemma {:induction false} IndexIsValue(addrs: seq<nat>, k: nat)
    requires StrictlyIncreasing(addrs) && addrs != [] && addrs[0] == 0
    requires Missing(addrs) == []
    requires k < |addrs|
    requires forall x :: x in Missing(addrs) <==> addrs[0] <= x <= addrs[|addrs| - 1] && x !in addrs
    ensures addrs[k] == k
  {
    if k > 0 {
      IndexIsValue(addrs, k - 1);
      assert addrs[k - 1] < addrs[k];
      assert k <= addrs[|addrs| - 1] by {
        assert k == |addrs| - 1 || addrs[k] < addrs[|addrs| - 1];
      }
      assert k in addrs;
      var j :| 0 <= j < |addrs| && addrs[j] == k;
      assert addrs[j] == k;
    } else {
      assert addrs[0] == 0;
    }
  }

  /** `exists`: some scope of the chain holds the name. */
  function ExistsIn(chain: seq<Scope>, name: string): (b: bool)
    ensures b <==> exists k :: 0 <= k < |chain| && Has(chain[k], name)
  {
    ChainHas(chain, name)
  }

  /** `read`: the variable of the innermost scope only; a name of an
      enclosing scope does not exist for it. */
  function ReadIn(vars: Scope, name: string): (r: Result<Variable, EnvError>)
    ensures r.Ok? <==> Has(vars, name)
    ensures r.Ok? ==> (name, r.value) in vars
    ensures r.Err? ==> r.error == DoesNotExist(name)
  {
    match Find(vars, name)
    case Some(v) => Ok(v)
    case None => Err(DoesNotExist(name))
  }

  /** `declare`, with the least free address of the whole chain in place of
      `findFree` (see `FirstGapCollides`). */
  function DeclareIn(vars: Scope, parents: seq<Scope>, name: string, vtype: VType): (r: Result<Scope, EnvError>)
    ensures r.Err? <==> Has(vars, name)
    ensures r.Err? ==> r.error == AlreadyExists(name)
    ensures r.Ok? ==> |r.value| == |vars| + 1
    ensures r.Ok? ==> ReadIn(r.value, name) == Ok(Variable(vtype, LowestFree(ChainAddrs([vars] + parents))))
    ensures r.Ok? ==> forall n :: n != name ==> Find(r.value, n) == Find(vars, n)
    ensures r.Ok? ==> (UniqueNames(vars) ==> UniqueNames(r.value))
  {
    if Has(vars, name) then Err(AlreadyExists(name))
    else Ok(Put(vars, name, Variable(vtype, LowestFree(ChainAddrs([vars] + parents)))))
  }

  /** Where the chain's addresses are 0, 1, 2, ... with gaps, in increasing
      order, `declare` picks the same address as `findFree` as written. */
  lemma DeclareAgreesWithFindFree(vars: Scope, parents: seq<Scope>, name: string, vtype: VType)
    requires !Has(vars, name)
    requires StrictlyIncreasing(ChainAddrs([vars] + parents))
    requires ChainAddrs([vars] + parents) == [] || ChainAddrs([vars] + parents)[0] == 0
    ensures ReadIn(DeclareIn(vars, parents, name, vtype).value, name).value.addr == FirstGap(ChainAddrs([vars] + parents))
  {
    FirstGapOfIncreasing(ChainAddrs([vars] + parents));
  }

  /** `remove`: nothing happens for a name that is not local. */
  function RemoveIn(vars: Scope, name: string): (r: Scope)
    ensures !Has(r, name)
    ensures forall n :: n != name ==> Find(r, n) == Find(vars, n)
    ensures !Has(vars, name) ==> r == vars
  {
    if Has(vars, name) then Delete(vars, name) else vars
  }

  /** A declared variable's address is in use by no variable of the chain,
      so two live variables never share a cell. */
  lemma DeclareIsFresh(vars: Scope, parents: seq<Scope>, name: string, vtype: VType)
    requires !Has(vars, name)
    ensures forall k, i :: 0 <= k < |[vars] + parents| && 0 <= i < |([vars] + parents)[k]| ==>
      ([vars] + parents)[k][i].1.addr != DeclareIn(vars, parents, name, vtype).value[|vars|].1.addr
  {
    var chain := [vars] + parents;
    var a := LowestFree(ChainAddrs(chain));
    assert DeclareIn(vars, parents, name, vtype).value[|vars|] == (name, Variable(vtype, a));
    forall k, i | 0 <= k < |chain| && 0 <= i < |chain[k]| ensures chain[k][i].1.addr != a {
      assert Addrs(chain[k])[i] == chain[k][i].1.addr;
      assert chain[k][i].1.addr in Addrs(chain[k]);
    }
  }

  class Environment {
    var vars: Scope
    /** The enclosing environments' maps, innermost first. The source keeps
        a reference to the parent object; the compiler never changes a parent
        while a child is in use, so the maps as they were at creation are the
        same thing. */
    const parents: seq<Scope>

    /** Every name is declared once in the local map. */
    predicate Valid()
      reads this
    {
      UniqueNames(vars)
    }

    constructor (parent: Environment?)
      ensures vars == []
      ensures parents == if parent == null then [] else [parent.vars] + parent.parents
      ensures Valid()
    {
      vars := [];
      parents := if parent == null then [] else [parent.vars] + parent.parents;
    }

    function Chain(): seq<Scope>
      reads this
    {
      [vars] + parents
    }

    /** `exists`. */
    function Exists(name: string): (b: bool)
      reads this
      ensures b <==> Has(vars, name) || exists k :: 0 <= k < |parents| && Has(parents[k], name)
    {
      assert forall k :: 0 <= k < |parents| ==> Chain()[k + 1] == parents[k];
      ExistsIn(Chain(), name)
    }

    /** `addresses`: the local addresses, then those of the parents. */
    function Addresses(): (r: seq<nat>)
      reads this
      ensures forall a :: a in r <==> exists k :: 0 <= k < |Chain()| && a in Addrs(Chain()[k])
      ensures |r| == Variables()
      ensures r == Addrs(vars) + ChainAddrs(parents)
    {
      ChainAddrs(Chain())
    }

    /** `variables`: how many variables the chain holds. */
    function Variables(): (n: nat)
      reads this
      ensures n == |vars| + ChainSize(parents)
    {
      ChainSize(Chain())
    }

    /** `findFree` as written: the first value `missingNumbers` reports, or,
        when it reports none, the number of addresses. */
    method FindFree() returns (addr: nat)
      ensures addr == FirstGap(Addresses())
    {
      var addrs := Addresses();
      var missing := MissingNumbers(addrs);
      if |missing| == 0 {
        return |addrs|;
      }
      return missing[0];
    }

    /** `declare`. */
    method Declare(name: string, vtype: VType) returns (r: Result<(), EnvError>)
      modifies this
      ensures old(Valid()) ==> Valid()
      ensures r.Err? <==> Has(old(vars), name)
      ensures r.Err? ==> r.error == AlreadyExists(name) && vars == old(vars)
      ensures r.Ok? ==> vars == DeclareIn(old(vars), parents, name, vtype).value
    {
      var d := DeclareIn(vars, parents, name, vtype);
      if d.Err? {
        return Err(d.error);
      }
      vars := d.value;
      return Ok(());
    }

    /** `read`. */
    function Read(name: string): (r: Result<Variable, EnvError>)
      reads this
      ensures r == ReadIn(vars, name)
    {
      ReadIn(vars, name)
    }

    /** `remove`. */
    method Remove(name: string)
      modifies this
      ensures old(Valid()) ==> Valid()
      ensures vars == RemoveIn(old(vars), name)
    {
      if !Has(vars, name) {
        return;
      }
      vars := Delete(vars, name);
    }
  }

  /** A name of an enclosing environment may be declared again locally; the
      new variable shadows the old one and gets a different address. */
  lemma ShadowingIsAllowed(outer: Scope, name: string, vtype: VType)
    requires Has(outer, name)
    ensures DeclareIn([], [outer], name, vtype).Ok?
    ensures ReadIn(DeclareIn([], [outer], name, vtype).value, name).value.addr != Find(outer, name).value.addr
  {
    DeclareIsFresh([], [outer], name, vtype);
    var v := Find(outer, name).value;
    var i :| 0 <= i < |outer| && outer[i] == (name, v);
    assert ([[]] + [outer])[1][i].1.addr == v.addr;
  }

  /** With `findFree` as written, shadowing can share a cell: in a child of
      a scope whose only variable is at address 1, `findFree` gives 1. */
  lemma ShadowingAsWrittenCollides(name: string, vtype: VType)
    ensures var outer := [(name, Variable(vtype, 1))];
            FirstGap(ChainAddrs([[]] + [outer])) == Find(outer, name).value.addr
  {
    var outer := [(name, Variable(vtype, 1))];
    assert ([[]] + [outer])[1..] == [outer];
    assert ChainAddrs([outer]) == Addrs(outer) + ChainAddrs([]);
    assert Addrs(outer) == [1];
    assert ChainAddrs([[]] + [outer]) == [1];
    FirstGapCollides();
  }
}
