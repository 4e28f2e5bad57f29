/** The simpler base-animation controller: groups indexed by lower-cased name,
    one current group, arm-isolated attack groups. */
module PlayerAnimator {
  import opened Common
  import opened Animations

  /** `current` is the key of the current group; `currentState` the key last
      switched to, "" before any switch and after `stop`. */
  datatype Animator = Animator(
    animations: map<string, Group>,
    current: Option<string>,
    currentState: string,
    leftAttack: Option<Group>,
    rightAttack: Option<Group>)

  datatype Side = Left | Right

  /** A clone of `source` named `name`, keeping, in order, exactly the
      animations that target `bone` itself. The new group is not playing. */
  method IsolateAnimationToBone(source: Group, bone: Node, name: string) returns (clone: Group)
    ensures clone.name == name && !clone.running && !clone.looping
    ensures forall i :: 0 <= i < |clone.animations| ==> clone.animations[i].target == bone
    ensures forall i :: 0 <= i < |source.animations| && source.animations[i].target == bone ==>
      source.animations[i] in clone.animations
    ensures clone.animations == Filter(source.animations, (ta: TargetedAnimation) => ta.target == bone)
  {
    var keep := (ta: TargetedAnimation) => ta.target == bone;
    var kept: seq<TargetedAnimation> := [];
    var i := 0;
    while i < |source.animations|
      invariant 0 <= i <= |source.animations|
      invariant kept == Filter(source.animations[..i], keep)
    {
      var ta := source.animations[i];
      FilterStep(source.animations, i, keep);
      if keep(ta) {
        kept := kept + [ta];
      }
      i := i + 1;
    }
    assert source.animations[..i] == source.animations;
    clone := Group(name, false, false, kept);
  }

  /** The first bone with the given name. */
  function FindBone(bones: seq<Node>, name: string): (r: Option<Node>)
    ensures r.Some? ==> r.value in bones && r.value.name == name
    ensures r.None? <==> forall i :: 0 <= i < |bones| ==> bones[i].name != name
    decreases |bones|
  {
    if bones == [] then None
    else if bones[0].name == name then Some(bones[0])
    else FindBone(bones[1..], name)
  }

  /** The arm-isolated attack group built from group `raw` and the bone named
      `boneName`, when both exist. */
  method AttackGroup(animations: map<string, Group>, raw: string, bones: seq<Node>, boneName: string, name: string)
    returns (r: Option<Group>)
    ensures r.Some? <==> raw in animations && FindBone(bones, boneName).Some?
    ensures r.Some? ==>
      && r.value.name == name && !r.value.running
      && forall i :: 0 <= i < |r.value.animations| ==> r.value.animations[i].target.name == boneName
    ensures r.Some? ==>
      r.value.animations == Filter(animations[raw].animations, (ta: TargetedAnimation) => ta.target == FindBone(bones, boneName).value)
    ensures r.Some? ==>
      (|r.value.animations| == 0 <==>
         forall i :: 0 <= i < |animations[raw].animations| ==> animations[raw].animations[i].target != FindBone(bones, boneName).value)
  {
    var bone := FindBone(bones, boneName);
    if raw in animations && bone.Some? {
      var g := IsolateAnimationToBone(animations[raw], bone.value, name);
      if |g.animations| > 0 {
        var ta := g.animations[0];
        assert ta in animations[raw].animations;
        var i :| 0 <= i < |animations[raw].animations| && animations[raw].animations[i] == ta;
        assert animations[raw].animations[i].target == bone.value;
      }
      r := Some(g);
    } else {
      r := None;
    }
  }

  /** The constructor. */
  method Create(groups: seq<Group>, bones: seq<Node>) returns (a: Animator)
    ensures a.current.None? && a.currentState == ""
    ensures a.animations == IndexByLowerName(groups)
    ensures a.leftAttack.Some? <==> "left_attack" in a.animations && FindBone(bones, "leftarmBone").Some?
    ensures a.rightAttack.Some? <==> "right-attack" in a.animations && FindBone(bones, "rightarmBone").Some?
  {
    var animations := IndexByLowerName(groups);
    var left := AttackGroup(animations, "left_attack", bones, "leftarmBone", "LeftArmAttack");
    var right := AttackGroup(animations, "right-attack", bones, "rightarmBone", "RightArmAttack");
    a := Animator(animations, None, "", left, right);
  }

  /** `setState`: the same key, compared after lower-casing the request, is a
      no-op. Otherwise the current group is stopped; a known key then starts
      its group looping and becomes current, while an unknown key leaves
      `current` and `currentState` as they were (pointing at a stopped group). */
  function SetState(a: Animator, name: string): (r: Animator)
    ensures a.currentState == Lower(name) ==> r == a
    ensures r.animations.Keys == a.animations.Keys
    ensures r.leftAttack == a.leftAttack && r.rightAttack == a.rightAttack
    ensures a.currentState != Lower(name) && Lower(name) in a.animations ==>
      && r.current == Some(Lower(name)) && r.currentState == Lower(name)
      && (a.current != Some(Lower(name)) ==> r.animations[Lower(name)] == a.animations[Lower(name)].Start(true))
      && (a.current == Some(Lower(name)) ==> r.animations[Lower(name)] == a.animations[Lower(name)].Stop().Start(true))
    ensures a.currentState != Lower(name) && Lower(name) !in a.animations ==>
      && r.current == a.current && r.currentState == a.currentState
      && (a.current.Some? && a.current.value in a.animations ==>
            r.animations[a.current.value] == a.animations[a.current.value].Stop())
    ensures forall k :: k in a.animations && Some(k) != a.current && k != Lower(name) ==>
      r.animations[k] == a.animations[k]
  {
    var key := Lower(name);
    if a.currentState == key then a
    else
      var stopped := StopKey(a.animations, a.current);
      if key in stopped then
        a.(animations := stopped[key := stopped[key].Start(true)], current := Some(key), currentState := key)
      else
        a.(animations := stopped)
  }

  /** `stop`. */
  function Stop(a: Animator): (r: Animator)
    ensures r.current.None? && r.currentState == ""
    ensures r.animations.Keys == a.animations.Keys
    ensures a.current.Some? && a.current.value in a.animations ==>
      r.animations[a.current.value] == a.animations[a.current.value].Stop()
    ensures forall k :: k in a.animations && Some(k) != a.current ==> r.animations[k] == a.animations[k]
  {
    Animator(StopKey(a.animations, a.current), None, "", a.leftAttack, a.rightAttack)
  }

  /** `getCurrentState`. */
  function GetCurrentState(a: Animator): (s: string)
    ensures a.current.None? && Consistent(a) ==> s == ""
    ensures a.current.Some? && Consistent(a) ==> s in a.animations
  {
    a.currentState
  }

  /** `playAttack`: plays the matching arm group once when it was set up, and
      does nothing otherwise. */
  function PlayAttack(a: Animator, side: Side): (r: Animator)
    ensures r.animations == a.animations && r.current == a.current && r.currentState == a.currentState
    ensures side == Left ==>
      && r.rightAttack == a.rightAttack
      && (if a.leftAttack.Some? then r.leftAttack == Some(a.leftAttack.value.Play(false)) else r.leftAttack.None?)
    ensures side == Right ==>
      && r.leftAttack == a.leftAttack
      && (if a.rightAttack.Some? then r.rightAttack == Some(a.rightAttack.value.Play(false)) else r.rightAttack.None?)
  {
    match side
    case Left => if a.leftAttack.Some? then a.(leftAttack := Some(a.leftAttack.value.Play(false))) else a
    case Right => if a.rightAttack.Some? then a.(rightAttack := Some(a.rightAttack.value.Play(false))) else a
  }

  /** The state invariant: `current` names the group of `currentState`, or is
      absent only while the state is "", and only the current group runs. */
  predicate Consistent(a: Animator) {
    && (a.current.Some? ==> a.current.value == a.currentState && a.currentState in a.animations)
    && (a.current.None? ==> a.currentState == "")
    && (forall k :: k in a.animations && a.animations[k].running ==> a.current == Some(k))
  }

  /** A freshly built animator is consistent when the groups it receives are
      stopped. */
  lemma CreateConsistent(groups: seq<Group>, a: Animator)
    requires forall i :: 0 <= i < |groups| ==> !groups[i].running
    requires a.current.None? && a.currentState == "" && a.animations == IndexByLowerName(groups)
    ensures Consistent(a)
  {
    forall k | k in a.animations ensures !a.animations[k].running {
      var g := a.animations[k];
      assert g in groups;
      var i :| 0 <= i < |groups| && groups[i] == g;
    }
  }

  lemma SetStatePreservesConsistent(a: Animator, name: string)
    requires Consistent(a)
    ensures Consistent(SetState(a, name))
  {
  }

  lemma StopPreservesConsistent(a: Animator)
    requires Consistent(a)
    ensures Consistent(Stop(a))
  {
    var r := Stop(a);
    forall k | k in r.animations
      ensures !r.animations[k].running
    {
      if Some(k) != a.current {
        assert r.animations[k] == a.animations[k];
      }
    }
  }

  /** The attack groups are outside the base-state bookkeeping, so playing
      one keeps the invariant. */
  lemma PlayAttackPreservesConsistent(a: Animator, side: Side)
    requires Consistent(a)
    ensures Consistent(PlayAttack(a, side))
  {
  }

  /** An attack plays once, and only when its clone kept some animation: a
      clone with no animation on the arm bone stays stopped, because starting
      a group with no targeted animations does nothing. */
  lemma PlayAttackRunsOnlyWithAnimations(a: Animator, side: Side)
    requires (if side == Left then a.leftAttack else a.rightAttack).Some?
    ensures var g := (if side == Left then a.leftAttack else a.rightAttack).value;
      var p := (if side == Left then PlayAttack(a, side).leftAttack else PlayAttack(a, side).rightAttack).value;
      && (p.running <==> g.running || |g.animations| > 0)
      && (p.running ==> !p.looping)
      && (|g.animations| == 0 && !g.running ==> p == g)
  {
  }

  /** Asking twice for the same state is the same as asking once. */
  lemma SetStateIdempotent(a: Animator, name: string)
    ensures SetState(SetState(a, name), name) == SetState(a, name) || Lower(name) !in a.animations
  {
  }
}
