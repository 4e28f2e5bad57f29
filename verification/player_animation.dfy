/** The base-animation state machine of the player model: groups indexed by
    lower-cased name, layered arm groups filtered to their bones, one looping
    base group per state, and layered one-shot requests. */
module PlayerAnimation {
  import opened Common
  import opened Animations

  /** The base states. */
  datatype AnimationState = Idle | Walk | Sprint | Crouch | Jump
  {
    function Name(): string {
      match this
      case Idle => "Idle"
      case Walk => "Walk"
      case Sprint => "Sprint"
      case Crouch => "Crouch"
      case Jump => "Jump"
    }
  }

  /** The lower-cased group key of each state. */
  function StateKey(s: AnimationState): string {
    match s
    case Idle => "idle"
    case Walk => "walk"
    case Sprint => "sprint"
    case Crouch => "crouch"
    case Jump => "jump"
  }

  /** The layer configuration: the bones each layered group may drive. Any
      other name has no entry. */
  function LayeredBones(name: string): (bones: Option<seq<string>>)
    ensures bones.Some? ==> |bones.value| == 1
    ensures bones.Some? <==> name in {"Right-Attack", "Left_Attack", "Right-Interact", "Left-Interact"}
  {
    if name == "Right-Attack" || name == "Right-Interact" then Some(["rightarmBone"])
    else if name == "Left_Attack" || name == "Left-Interact" then Some(["leftarmBone"])
    else None
  }

  /** The lower-cased keys of the layered groups. */
  const LayeredKeys: set<string> := {"right-attack", "left_attack", "right-interact", "left-interact"}

  /** The animation name map of `playBaseAnimation`: the known lower-case state
      names map to their capitalised names, anything else to itself. */
  function AnimNameMap(lowered: string): (g: string)
    ensures lowered in {"idle", "walk", "sprint", "crouch"} ==> Lower(g) == lowered && g != lowered
    ensures lowered !in {"idle", "walk", "sprint", "crouch"} ==> g == lowered
  {
    if lowered == "idle" then LowerIs("Idle", "idle"); "Idle"
    else if lowered == "walk" then LowerIs("Walk", "walk"); "Walk"
    else if lowered == "sprint" then LowerIs("Sprint", "sprint"); "Sprint"
    else if lowered == "crouch" then LowerIs("Crouch", "crouch"); "Crouch"
    else lowered
  }

  /** Lower-casing a string literal, character by character. */
  lemma LowerIs(s: string, t: string)
    requires |s| == |t| && forall i :: 0 <= i < |s| ==> LowerChar(s[i]) == t[i]
    ensures Lower(s) == t
  {
  }

  /** The name map is only a detour: every state's group is looked up under
      the lower-cased state name, which is its key. */
  lemma StateKeyIsLowerName(s: AnimationState)
    ensures Lower(s.Name()) == StateKey(s)
    ensures Lower(AnimNameMap(Lower(s.Name()))) == StateKey(s)
  {
    LowerStateName(s);
    if s == Jump {
      LowerIs("jump", "jump");
    } else {
      assert AnimNameMap(StateKey(s)) == s.Name();
    }
  }

  lemma LowerStateName(s: AnimationState)
    ensures Lower(s.Name()) == StateKey(s)
  {
    match s
    case Idle => LowerIs("Idle", "idle");
    case Walk => LowerIs("Walk", "walk");
    case Sprint => LowerIs("Sprint", "sprint");
    case Crouch => LowerIs("Crouch", "crouch");
    case Jump => LowerIs("Jump", "jump");
  }

  /** Distinct states have distinct keys, none of them a layered key. */
  lemma StateKeysDistinct(s: AnimationState, t: AnimationState)
    ensures StateKey(s) == StateKey(t) ==> s == t
    ensures StateKey(s) !in LayeredKeys
  {
  }

  /** Each layered name lower-cases to a layered key. */
  lemma LayeredNameKeys(name: string)
    requires LayeredBones(name).Some?
    ensures Lower(name) in LayeredKeys
  {
    if name == "Right-Attack" { LowerIs("Right-Attack", "right-attack"); }
    else if name == "Left_Attack" { LowerIs("Left_Attack", "left_attack"); }
    else if name == "Right-Interact" { LowerIs("Right-Interact", "right-interact"); }
    else { LowerIs("Left-Interact", "left-interact"); }
  }

  /** Each layered name drives exactly one arm bone. */
  lemma LayeredNamesDriveOneArm(name: string)
    requires LayeredBones(name).Some?
    ensures LayeredBones(name).value == ["rightarmBone"] || LayeredBones(name).value == ["leftarmBone"]
  {
  }

  /** The controller state: the groups by lower-cased name and the base state. */
  datatype Anim = Anim(groups: map<string, Group>, currentState: AnimationState)

  /** What the constructor does to one group: a group named in the layer
      configuration keeps only the animations that target a configured bone,
      unless none do, in which case it is left as it was; every group is then
      stopped. */
  function Prepare(g: Group): (r: Group)
    ensures r.name == g.name && !r.running && r.looping == g.looping
    ensures LayeredBones(g.name).None? ==> r.animations == g.animations
    ensures LayeredBones(g.name).Some? ==>
      var kept := Filter(g.animations, (ta: TargetedAnimation) => ta.target.name in LayeredBones(g.name).value);
      r.animations == if |kept| == 0 then g.animations else kept
  {
    match LayeredBones(g.name)
    case None => g.Stop()
    case Some(bones) =>
      var kept := Filter(g.animations, (ta: TargetedAnimation) => ta.target.name in bones);
      if |kept| == 0 then g.Stop() else g.(animations := kept).Stop()
  }

  /** A prepared layered group drives only configured bones, or is the input
      group unchanged apart from being stopped. */
  lemma PreparedLayeredDrivesConfiguredBones(g: Group)
    requires LayeredBones(g.name).Some?
    ensures Prepare(g).animations == g.animations
         || forall i :: 0 <= i < |Prepare(g).animations| ==>
              Prepare(g).animations[i].target.name in LayeredBones(g.name).value
  {
  }

  function PrepareAll(gs: seq<Group>): (r: seq<Group>)
    ensures |r| == |gs|
    ensures forall i :: 0 <= i < |gs| ==> r[i] == Prepare(gs[i])
  {
    seq(|gs|, i requires 0 <= i < |gs| => Prepare(gs[i]))
  }

  /** The constructor. */
  function Init(gs: seq<Group>): (a: Anim)
    ensures a.currentState == Idle
    ensures forall i :: 0 <= i < |gs| ==> Lower(gs[i].name) in a.groups
    ensures forall k :: k in a.groups ==> a.groups[k] in PrepareAll(gs) && Lower(a.groups[k].name) == k
    ensures forall k :: k in a.groups ==> !a.groups[k].running
  {
    var prepared := PrepareAll(gs);
    assert forall i :: 0 <= i < |gs| ==> Lower(gs[i].name) == Lower(prepared[i].name);
    Anim(IndexByLowerName(prepared), Idle)
  }

  /** `playBaseAnimation`: a request for the current state does nothing;
      otherwise the current state's group is stopped, the requested state's
      group is started looping, and the state changes even when neither group
      exists. No other group is touched. */
  function PlayBase(a: Anim, s: AnimationState): (r: Anim)
    ensures a.currentState == s ==> r == a
    ensures r.currentState == s && r.groups.Keys == a.groups.Keys
    ensures a.currentState != s ==>
      && (StateKey(a.currentState) in a.groups ==> r.groups[StateKey(a.currentState)] == a.groups[StateKey(a.currentState)].Stop())
      && (StateKey(s) in a.groups ==> r.groups[StateKey(s)] == a.groups[StateKey(s)].Start(true))
    ensures forall k :: k in a.groups && k != StateKey(a.currentState) && k != StateKey(s) ==> r.groups[k] == a.groups[k]
  {
    if a.currentState == s then a
    else
      StateKeyIsLowerName(s);
      StateKeyIsLowerName(a.currentState);
      StateKeysDistinct(s, a.currentState);
      var groupName := AnimNameMap(Lower(s.Name()));
      var stopped := StopKey(a.groups, Some(Lower(a.currentState.Name())));
      var nextKey := Lower(groupName);
      var started := if nextKey in stopped then stopped[nextKey := stopped[nextKey].Start(true)] else stopped;
      Anim(started, s)
  }

  /** The running-groups invariant: every running group is the current
      state's base group or a layered group. */
  predicate OnlyCurrentOrLayeredRun(a: Anim) {
    forall k :: k in a.groups && a.groups[k].running ==> k == StateKey(a.currentState) || k in LayeredKeys
  }

  lemma InitSatisfiesInvariant(gs: seq<Group>)
    ensures OnlyCurrentOrLayeredRun(Init(gs))
  {
  }

  lemma PlayBasePreservesInvariant(a: Anim, s: AnimationState)
    requires OnlyCurrentOrLayeredRun(a)
    ensures OnlyCurrentOrLayeredRun(PlayBase(a, s))
  {
    var r := PlayBase(a, s);
    forall k | k in r.groups && r.groups[k].running
      ensures k == StateKey(s) || k in LayeredKeys
    {
      if k != StateKey(s) && k != StateKey(a.currentState) {
        assert r.groups[k] == a.groups[k];
      }
    }
  }

  /** Right after `playBaseAnimation(s)` from a state whose groups satisfy the
      invariant, the only base group running is the one for s. */
  lemma PlayBaseRunsOneBaseGroup(a: Anim, s: AnimationState, t: AnimationState)
    requires OnlyCurrentOrLayeredRun(a)
    requires t != s && StateKey(t) in PlayBase(a, s).groups
    ensures !PlayBase(a, s).groups[StateKey(t)].running
  {
    PlayBasePreservesInvariant(a, s);
    StateKeysDistinct(t, s);
  }

  /** One `beginDirectAnimation` call: a skeleton bone and the group entry
      whose animation it plays. */
  datatype DirectRequest = DirectRequest(bone: Node, source: TargetedAnimation)

  /** For each bone in order, the group's animations whose target has that
      bone's name, in order. */
  function BoneRequests(bones: seq<Node>, anims: seq<TargetedAnimation>): (rs: seq<DirectRequest>)
    ensures forall i :: 0 <= i < |rs| ==>
      rs[i].bone in bones && rs[i].source in anims && rs[i].source.target.name == rs[i].bone.name
    ensures forall b, j :: b in bones && 0 <= j < |anims| && anims[j].target.name == b.name ==>
      DirectRequest(b, anims[j]) in rs
    decreases |bones|
  {
    if bones == [] then []
    else
      var head := BoneRequestsOf(bones[0], anims);
      var tail := BoneRequests(bones[1..], anims);
      assert forall b :: b in bones ==> b == bones[0] || b in bones[1..];
      head + tail
  }

  /** The requests of one bone: the animations aimed at its name, in order. */
  function BoneRequestsOf(b: Node, anims: seq<TargetedAnimation>): (rs: seq<DirectRequest>)
    ensures forall i :: 0 <= i < |rs| ==>
      rs[i].bone == b && rs[i].source in anims && rs[i].source.target.name == b.name
    ensures forall j :: 0 <= j < |anims| && anims[j].target.name == b.name ==> DirectRequest(b, anims[j]) in rs
  {
    var mine := Filter(anims, (ta: TargetedAnimation) => ta.target.name == b.name);
    var rs := seq(|mine|, i requires 0 <= i < |mine| => DirectRequest(b, mine[i]));
    assert forall j :: 0 <= j < |anims| && anims[j].target.name == b.name ==> DirectRequest(b, anims[j]) in rs by {
      forall j | 0 <= j < |anims| && anims[j].target.name == b.name
        ensures DirectRequest(b, anims[j]) in rs
      {
        var i :| 0 <= i < |mine| && mine[i] == anims[j];
        assert rs[i] == DirectRequest(b, anims[j]);
      }
    }
    rs
  }

  datatype Layered = Layered(anim: Anim, requests: seq<DirectRequest>)

  /** `playLayeredAnimation`: nothing happens when no group is stored under
      the lower-cased name or the exact name has no bone mapping; otherwise the
      group is started once (not looping) and every skeleton bone with a mapped
      name plays each of the group's animations aimed at a node of that name. */
  function PlayLayered(a: Anim, name: string, skeleton: seq<Node>): (r: Layered)
    ensures Lower(name) !in a.groups || LayeredBones(name).None? ==> r == Layered(a, [])
    ensures Lower(name) in a.groups && LayeredBones(name).Some? ==>
      && r.anim == a.(groups := a.groups[Lower(name) := a.groups[Lower(name)].Start(false)])
      && forall i :: 0 <= i < |r.requests| ==>
           && r.requests[i].bone in skeleton
           && r.requests[i].bone.name in LayeredBones(name).value
           && r.requests[i].source in a.groups[Lower(name)].animations
           && r.requests[i].source.target.name == r.requests[i].bone.name
    ensures Lower(name) in a.groups && LayeredBones(name).Some? ==>
      var anims := a.groups[Lower(name)].animations;
      forall b, j ::
        b in skeleton && b.name in LayeredBones(name).value && 0 <= j < |anims| && anims[j].target.name == b.name
        ==> DirectRequest(b, anims[j]) in r.requests
  {
    if Lower(name) !in a.groups then Layered(a, [])
    else match LayeredBones(name)
      case None => Layered(a, [])
      case Some(boneNames) =>
        var g := a.groups[Lower(name)];
        var bones := Filter(skeleton, (b: Node) => b.name in boneNames);
        assert forall b :: b in skeleton && b.name in boneNames ==> b in bones by {
          forall b | b in skeleton && b.name in boneNames ensures b in bones {
            var i :| 0 <= i < |skeleton| && skeleton[i] == b;
          }
        }
        Layered(a.(groups := a.groups[Lower(name) := g.Start(false)]), BoneRequests(bones, g.animations))
  }

  /** Layered playback keeps the running-groups invariant. */
  lemma PlayLayeredPreservesInvariant(a: Anim, name: string, skeleton: seq<Node>)
    requires OnlyCurrentOrLayeredRun(a)
    ensures OnlyCurrentOrLayeredRun(PlayLayered(a, name, skeleton).anim)
  {
    if Lower(name) in a.groups && LayeredBones(name).Some? {
      LayeredNameKeys(name);
    }
  }
}
