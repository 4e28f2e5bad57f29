/** Animation groups seen abstractly: a named group with a running flag, a loop
    flag and a list of (target node, animation) pairs, plus the indexing by
    lower-cased name that both animation controllers perform. */
module Animations {
  import opened Common

  /** A scene node an animation can target (a skeleton bone). Two nodes are
      the same object exactly when their `id`s agree. */
  datatype Node = Node(id: nat, name: string)

  /** One animation of a group and the node it drives. */
  datatype TargetedAnimation = TargetedAnimation(target: Node, animation: string)

  datatype Group = Group(name: string, running: bool, looping: bool, animations: seq<TargetedAnimation>)
  {
    /** `start(loop)`: a group that is already running, or that has no
        targeted animations, is left as it is; any other group starts with
        the given loop flag. */
    function Start(loop: bool): (g: Group)
      ensures g.name == name && g.animations == animations
      ensures g.running <==> running || |animations| > 0
      ensures !running && |animations| > 0 ==> g.looping == loop
      ensures running || |animations| == 0 ==> g == this
    {
      if running || |animations| == 0 then this else this.(running := true, looping := loop)
    }

    /** `play(loop)`: a running group takes the new loop flag and restarts
        from the beginning; any other group is stopped and started, which
        starts nothing when it has no targeted animations. */
    function Play(loop: bool): (g: Group)
      ensures g.name == name && g.animations == animations
      ensures g.running <==> running || |animations| > 0
      ensures g.running ==> g.looping == loop
      ensures !g.running ==> g == this
    {
      if running then this.(looping := loop) else Stop().Start(loop)
    }

    /** `stop()`. */
    function Stop(): (g: Group)
      ensures !g.running && g.looping == looping
      ensures g.name == name && g.animations == animations
    {
      this.(running := false)
    }
  }

  /** The groups stored under their lower-cased names, one after another, so a
      later group replaces an earlier one whose name lower-cases the same. */
  function IndexByLowerName(gs: seq<Group>): (m: map<string, Group>)
    ensures forall i :: 0 <= i < |gs| ==> Lower(gs[i].name) in m
    ensures forall k :: k in m ==> m[k] in gs && Lower(m[k].name) == k
    decreases |gs|
  {
    if gs == [] then map[]
    else
      var init, last := gs[..|gs| - 1], gs[|gs| - 1];
      var m := IndexByLowerName(init);
      var r := m[Lower(last.name) := last];
      assert forall i :: 0 <= i < |gs| ==> Lower(gs[i].name) in r by {
        forall i | 0 <= i < |gs| ensures Lower(gs[i].name) in r {
          if i < |init| {
            assert gs[i] == init[i];
          }
        }
      }
      assert forall k :: k in r ==> r[k] in gs && Lower(r[k].name) == k by {
        forall k | k in r ensures r[k] in gs && Lower(r[k].name) == k {
          if k != Lower(last.name) {
            assert r[k] == m[k] && m[k] in init;
          }
        }
      }
      r
  }

  /** Last one wins: a group that no later group shares its lower-cased name
      with is the one indexed under that name. */
  lemma {:induction false} IndexLastWins(gs: seq<Group>, i: int)
    requires 0 <= i < |gs|
    requires forall j :: i < j < |gs| ==> Lower(gs[j].name) != Lower(gs[i].name)
    ensures IndexByLowerName(gs)[Lower(gs[i].name)] == gs[i]
    decreases |gs|
  {
    var key := Lower(gs[i].name);
    var init, last := gs[..|gs| - 1], gs[|gs| - 1];
    assert IndexByLowerName(gs) == IndexByLowerName(init)[Lower(last.name) := last];
    if i < |gs| - 1 {
      assert Lower(last.name) != key;
      assert init[i] == gs[i];
      forall j | i < j < |init| ensures Lower(init[j].name) != Lower(init[i].name) {
        assert init[j] == gs[j];
      }
      IndexLastWins(init, i);
    }
  }

  /** Stopping the group under key `k`, when there is one; other groups are
      untouched. */
  function StopKey(m: map<string, Group>, k: Option<string>): (r: map<string, Group>)
    ensures r.Keys == m.Keys
    ensures forall j :: j in m && (k.None? || j != k.value) ==> r[j] == m[j]
    ensures k.Some? && k.value in m ==> r[k.value] == m[k.value].Stop()
  {
    if k.Some? && k.value in m then m[k.value := m[k.value].Stop()] else m
  }
}
