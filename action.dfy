/**
 * The push-destination menu of main.go: the `Action` enumeration (an `int`
 * with `iota` values), the menu offered to the user, and the `switch` that
 * turns the choice into an outcome.
 */
module Actions {
  import opened Optional

  datatype Action = Cancel | Push | Fork | Skip

  /** The `iota` value of each constant. */
  function Ordinal(a: Action): (i: nat)
    ensures i < 4
  {
    match a
    case Cancel => 0
    case Push => 1
    case Fork => 2
    case Skip => 3
  }

  /** The constant with a given `int` value, if any. */
  function FromOrdinal(i: int): (a: Option<Action>)
    ensures a.Some? <==> 0 <= i < 4
  {
    if i == 0 then Some(Cancel)
    else if i == 1 then Some(Push)
    else if i == 2 then Some(Fork)
    else if i == 3 then Some(Skip)
    else None
  }

  /** The `iota` numbering is a bijection between the four constants and 0..3. */
  lemma OrdinalRoundTrip(a: Action, i: int)
    ensures FromOrdinal(Ordinal(a)) == Some(a)
    ensures FromOrdinal(i).Some? ==> Ordinal(FromOrdinal(i).value) == i
  {
  }

  /** `fmt.Sprintf("%s/%s", owner, name)`: the owner, a `/`, then the name. */
  function FullName(owner: string, name: string): (r: string)
    ensures |r| == |owner| + 1 + |name|
    ensures r[..|owner|] == owner && r[|owner|] == '/' && r[|owner| + 1..] == name
  {
    owner + "/" + name
  }

  /** `fmt.Sprintf("%s/%s-fork", owner, name)`: the repository's full name with `-fork` appended. */
  function ForkName(owner: string, name: string): (r: string)
    ensures r == FullName(owner, name) + "-fork"
    ensures r != FullName(owner, name)
  {
    owner + "/" + name + "-fork"
  }

  /** The menu's options, label then value, in the order shown. */
  function Menu(owner: string, name: string): (options: seq<(string, Action)>)
    ensures |options| == 4
    ensures Choices(options) == {Cancel, Push, Fork, Skip}
    ensures forall i, j :: 0 <= i < j < |options| ==> options[i].1 != options[j].1
  {
    var m := [(FullName(owner, name), Push), ("Fork " + FullName(owner, name), Fork),
              ("Skip pushing branch", Skip), ("Cancel", Cancel)];
    assert m[0].1 == Push && m[1].1 == Fork && m[2].1 == Skip && m[3].1 == Cancel;
    m
  }

  function Choices(options: seq<(string, Action)>): set<Action> {
    set i | 0 <= i < |options| :: options[i].1
  }

  /** What the `switch` leads to: an exit code, or carrying on, after pushing to a target or not. */
  datatype Outcome = Exit(code: int) | Continue(pushTarget: Option<string>)

  function Dispatch(a: Action, owner: string, name: string): (o: Outcome)
    ensures o.Exit? <==> a == Cancel
    ensures o.Exit? ==> o.code == 1
    ensures o.Continue? ==> (o.pushTarget.None? <==> a == Skip)
  {
    match a
    case Cancel => Exit(1)
    case Push => Continue(Some(FullName(owner, name)))
    case Fork => Continue(Some(ForkName(owner, name)))
    case Skip => Continue(None)
  }

  /** Push targets the repository itself; Fork the same name with `-fork` appended. */
  lemma PushTargets(owner: string, name: string)
    ensures Dispatch(Push, owner, name).pushTarget == Some(owner + "/" + name)
    ensures Dispatch(Fork, owner, name).pushTarget == Some(owner + "/" + name + "-fork")
  {
  }

  /** Each choice has an outcome of its own: the outcome tells which was chosen. */
  lemma DispatchInjective(a1: Action, a2: Action, owner: string, name: string)
    requires Dispatch(a1, owner, name) == Dispatch(a2, owner, name)
    ensures a1 == a2
  {
    if {a1, a2} == {Push, Fork} {
      assert |FullName(owner, name)| != |ForkName(owner, name)|;
    }
  }
}
