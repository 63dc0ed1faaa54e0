/** The alternative environment of runtime/dyn_environment.ts: addresses are
    numbered per scope from 0 (one past the largest in use), `read` looks one
    level up, and `getVarDepth` says how many levels up a name lives. The
    compiler does not use it. */
module DynEnv {
  import opened Wrappers
  import opened VTypes
  import opened Scopes

  datatype DynError = AlreadyExists(name: string) | DoesNotExist(name: string)

  /** `lastAddr`: 0 for an empty scope, else one past the largest address. */
  function LastAddr(vars: Scope): (a: nat)
    ensures forall i :: 0 <= i < |vars| ==> vars[i].1.addr < a
    ensures vars == [] ==> a == 0
    ensures vars != [] ==> a - 1 in Addrs(vars)
  {
    var addrs := Addrs(vars);
    if |addrs| == 0 then 0 else Max(addrs) + 1
  }

  /** `getVarDepth`: the position in the chain (0 for the local scope) of
      the first scope that holds the name. */
  function VarDepth(chain: seq<Scope>, name: string): (r: Result<nat, DynError>)
    ensures r.Ok? ==> r.value < |chain| && Has(chain[r.value], name)
    ensures r.Ok? ==> forall k :: 0 <= k < r.value ==> !Has(chain[k], name)
    ensures r.Err? <==> forall k :: 0 <= k < |chain| ==> !Has(chain[k], name)
    ensures r.Err? ==> r.error == DoesNotExist(name)
  {
    if chain == [] then Err(DoesNotExist(name))
    else if Has(chain[0], name) then Ok(0)
    else
      match VarDepth(chain[1..], name)
      case Ok(d) => Ok(d + 1)
      case Err(e) => Err(e)
  }

  /** `read`: a name of the local scope or of the immediate parent. */
  function ReadIn(vars: Scope, parents: seq<Scope>, name: string): (r: Result<Variable, DynError>)
    ensures r.Ok? <==> Has(vars, name) || (parents != [] && Has(parents[0], name))
    ensures r.Ok? && Has(vars, name) ==> (name, r.value) in vars
    ensures r.Ok? && !Has(vars, name) ==> (name, r.value) in parents[0]
    ensures r.Err? ==> r.error == DoesNotExist(name)
  {
    match Find(vars, name)
    case Some(v) => Ok(v)
    case None =>
      if parents != [] && Has(parents[0], name) then Ok(Find(parents[0], name).value)
      else Err(DoesNotExist(name))
  }

  /** `declare`: the new variable takes `lastAddr`. */
  function DeclareIn(vars: Scope, name: string, vtype: VType): (r: Result<(Variable, Scope), DynError>)
    ensures r.Err? <==> Has(vars, name)
    ensures r.Err? ==> r.error == AlreadyExists(name)
    ensures r.Ok? ==> r.value.0 == Variable(vtype, LastAddr(vars))
    ensures r.Ok? ==> Find(r.value.1, name) == Some(r.value.0)
    ensures r.Ok? ==> forall n :: n != name ==> Find(r.value.1, n) == Find(vars, n)
    ensures r.Ok? ==> forall i :: 0 <= i < |vars| ==> vars[i].1.addr != r.value.0.addr
  {
    if Has(vars, name) then Err(AlreadyExists(name))
    else
      var v := Variable(vtype, LastAddr(vars));
      Ok((v, Put(vars, name, v)))
  }

  /** `remove`: only a local name can be removed. */
  function RemoveIn(vars: Scope, name: string): (r: Result<Scope, DynError>)
    ensures r.Err? <==> !Has(vars, name)
    ensures r.Ok? ==> !Has(r.value, name) && |r.value| < |vars|
    ensures r.Ok? ==> forall n :: n != name ==> Find(r.value, n) == Find(vars, n)
  {
    if !Has(vars, name) then Err(DoesNotExist(name))
    else
      DeleteShrinks(vars, name);
      Ok(Delete(vars, name))
  }

  lemma {:induction false} DeleteShrinks(s: Scope, name: string)
    requires Has(s, name)
    ensures |Delete(s, name)| < |s|
  {
    if s[0].0 != name {
      DeleteShrinks(s[1..], name);
    }
  }

  class Environment {
    var vars: Scope
    /** The enclosing environments' maps, innermost first, as they were when
        this one was made. */
    const parents: seq<Scope>

    predicate Valid()
      reads this
    {
      UniqueNames(vars)
    }

    constructor (parent: Environment?)
      ensures vars == []
      ensures parents == if parent == null then [] else [parent.vars] + parent.parents
      ensures Valid()
    {
      vars := [];
      parents := if parent == null then [] else [parent.vars] + parent.parents;
    }

    /** `addrs`: the local addresses only. */
    function Addresses(): (r: seq<nat>)
      reads this
      ensures |r| == |vars| && forall i :: 0 <= i < |vars| ==> r[i] == vars[i].1.addr
    {
      Addrs(vars)
    }

    /** `exists`: any scope of the chain. */
    function Exists(name: string): (b: bool)
      reads this
      ensures b <==> Has(vars, name) || exists k :: 0 <= k < |parents| && Has(parents[k], name)
    {
      assert forall k :: 0 <= k < |parents| ==> ([vars] + parents)[k + 1] == parents[k];
      ChainHas([vars] + parents, name)
    }

    function LastAddress(): (a: nat)
      reads this
      ensures a !in Addresses()
    {
      LastAddr(vars)
    }

    function GetVarDepth(name: string): (r: Result<nat, DynError>)
      reads this
      ensures r.Ok? <==> Exists(name)
      ensures r.Ok? ==> (r.value == 0 <==> Has(vars, name))
      ensures r.Ok? ==> r.value <= |parents|
      ensures r.Ok? && r.value > 0 ==> Has(parents[r.value - 1], name)
    {
      var chain := [vars] + parents;
      assert forall k :: 0 < k < |chain| ==> chain[k] == parents[k - 1];
      VarDepth(chain, name)
    }

    function Read(name: string): (r: Result<Variable, DynError>)
      reads this
      ensures r == ReadIn(vars, parents, name)
    {
      ReadIn(vars, parents, name)
    }

    method Declare(name: string, vtype: VType) returns (r: Result<Variable, DynError>)
      modifies this
      ensures old(Valid()) ==> Valid()
      ensures r.Err? <==> Has(old(vars), name)
      ensures r.Err? ==> vars == old(vars)
      ensures r.Ok? ==> r.value == DeclareIn(old(vars), name, vtype).value.0
      ensures r.Ok? ==> vars == DeclareIn(old(vars), name, vtype).value.1
    {
      var d := DeclareIn(vars, name, vtype);
      if d.Err? {
        return Err(d.error);
      }
      vars := d.value.1;
      return Ok(d.value.0);
    }

    method Remove(name: string) returns (r: Result<(), DynError>)
      modifies this
      ensures old(Valid()) ==> Valid()
      ensures r.Err? <==> !Has(old(vars), name)
      ensures r.Err? ==> vars == old(vars)
      ensures r.Ok? ==> vars == RemoveIn(old(vars), name).value
    {
      var d := RemoveIn(vars, name);
      if d.Err? {
        return Err(d.error);
      }
      vars := d.value;
      return Ok(());
    }
  }

  /** Declaring into a scope allocated only by `declare` numbers the slots
      0, 1, 2, ...: the next address is one past the one just given. */
  lemma LastAddrAfterDeclare(vars: Scope, name: string, vtype: VType)
    requires !Has(vars, name)
    ensures LastAddr(DeclareIn(vars, name, vtype).value.1) == LastAddr(vars) + 1
  {
    var s := DeclareIn(vars, name, vtype).value.1;
    assert s == vars + [(name, Variable(vtype, LastAddr(vars)))];
    assert s[|vars|].1.addr == LastAddr(vars);
    assert Addrs(s)[|vars|] == LastAddr(vars);
  }

  /** `read` looks no further than the parent: a name two levels up exists
      but cannot be read, while `getVarDepth` finds it at depth 2. */
  lemma ReadStopsAtParent(v: Variable)
    ensures VarDepth([[], [], [("x", v)]], "x") == Ok(2)
    ensures ReadIn([], [[], [("x", v)]], "x").Err?
  {
    assert Has([("x", v)], "x") && !Has([], "x");
    assert [[], [("x", v)]][1..] == [[("x", v)]];
    assert [[], [], [("x", v)]][1..] == [[], [("x", v)]];
    assert VarDepth([[("x", v)]], "x") == Ok(0);
    assert VarDepth([[], [("x", v)]], "x") == Ok(1);
  }
}
