/** Message delivery to a list of resolved targets (src-tauri/src/control.rs,
    deliver_message_to_target_with_delivery_options). */
module Delivery {
  import opened Common
  import opened DeliveryRoutes

  // ----- transports -----

  /** What is reported for a target; `error` is the message of its error, if any. */
  datatype Detail = Detail(uuid: string, deliveryState: string, error: Option<string>)

  datatype LiveAnswer =
    | LiveOk(detail: Detail)
    | LiveErr(message: string, partial: Option<Detail>, submitted: bool)

  datatype NativeAnswer =
    | NativeOk(detail: Detail)
    | NativeErr(message: string, boundaryCrossed: bool)

  datatype HeadlessAnswer =
    | Completed(detail: Detail, ran: bool)
    | Busy(current: TargetInfo)

  /** The transport whose answer settles a target, if any is asked. */
  datatype Arm = NoArm | LiveArm | NativeArm | HeadlessArm

  /** The provider side of the three transports. `asked` lists the calls in order
      and `crossed` the targets whose provider boundary a call crossed. Each call
      crosses at most once, and the native broker reports truthfully whether it
      did. */
  class Transports {
    ghost var asked: seq<Arm>
    ghost var crossed: seq<string>

    constructor ()
      ensures asked == [] && crossed == []
    {
      asked, crossed := [], [];
    }

    method SubmitLive(uuid: string, answer: LiveAnswer) returns (r: LiveAnswer)
      modifies this
      ensures r == answer
      ensures asked == old(asked) + [LiveArm]
      ensures crossed == old(crossed) + if answer.LiveOk? || answer.submitted then [uuid] else []
    {
      r := answer;
      asked := asked + [LiveArm];
      crossed := crossed + if answer.LiveOk? || answer.submitted then [uuid] else [];
    }

    method DeliverNative(uuid: string, answer: NativeAnswer) returns (r: NativeAnswer)
      modifies this
      ensures r == answer
      ensures asked == old(asked) + [NativeArm]
      ensures crossed == old(crossed) + if answer.NativeOk? || answer.boundaryCrossed then [uuid] else []
    {
      r := answer;
      asked := asked + [NativeArm];
      crossed := crossed + if answer.NativeOk? || answer.boundaryCrossed then [uuid] else [];
    }

    method DeliverHeadless(uuid: string, answer: HeadlessAnswer) returns (r: HeadlessAnswer)
      modifies this
      ensures r == answer
      ensures asked == old(asked) + [HeadlessArm]
      ensures crossed == old(crossed) + if answer.Completed? && answer.ran then [uuid] else []
    {
      r := answer;
      asked := asked + [HeadlessArm];
      crossed := crossed + if answer.Completed? && answer.ran then [uuid] else [];
    }
  }

  // ----- one target -----

  /** Everything one iteration asks the outside: the refreshed target, the routing
      facts, the durable interaction and the answer of each transport. */
  datatype Answers = Answers(
    initial: TargetInfo,
    current: Result<TargetInfo, string>,
    surface: Surface,
    nativeRecord: Result<Option<string>, string>,
    interaction: Result<string, string>,
    live: LiveAnswer,
    native: NativeAnswer,
    headless: HeadlessAnswer)

  /** Transports and lookups answer for the target they were asked about. */
  ghost predicate AnswersFor(a: Answers) {
    var uuid := a.initial.uuid;
    && (a.current.Ok? ==> a.current.value.uuid == uuid)
    && (a.live.LiveOk? ==> a.live.detail.uuid == uuid)
    && (a.live.LiveErr? && a.live.partial.Some? ==> a.live.partial.value.uuid == uuid)
    && (a.native.NativeOk? ==> a.native.detail.uuid == uuid)
    && (a.headless.Completed? ==> a.headless.detail.uuid == uuid)
    && (a.headless.Busy? ==> a.headless.current.uuid == uuid)
  }

  datatype Step =
    | Delivered(detail: Detail)
    | Failed(detail: Detail, failure: string)
    | Aborted(error: string)

  /** rejected_delivery_detail. */
  function Rejected(uuid: string, failure: string): Detail {
    Detail(uuid, failure, Some(failure))
  }

  predicate SameIncarnation(left: TargetInfo, right: TargetInfo) {
    left.uuid == right.uuid && left.incarnation == right.incarnation
  }

  /** The native delivery that an idempotency key may name already. */
  predicate LooksUpNativeRecord(info: TargetInfo, route: Route, mode: InputMode, hasKey: bool) {
    route.Headless? && mode.Message? && ForProvider(info.provider).Some? && hasKey
  }

  /** The errors that leave the loop. */
  ghost predicate Aborts(a: Answers, mode: InputMode, policy: QueuePolicy, hasAction: bool, hasKey: bool) {
    || a.current.Err?
    || (SameIncarnation(a.initial, a.current.value)
        && var route := ChooseRoute(a.current.value, a.surface, mode, policy, hasAction);
           if LooksUpNativeRecord(a.current.value, route, mode, hasKey)
           then a.nativeRecord.Err? || (a.nativeRecord.value.None? && a.interaction.Err?)
           else a.interaction.Err?)
  }

  ghost function HeadlessRouteArm(a: Answers, mode: InputMode): Arm
    requires a.current.Ok?
  {
    if TakesNativeArm(a.current.value, mode) && (a.native.NativeOk? || a.native.boundaryCrossed) then NativeArm
    else HeadlessArm
  }

  ghost function SettlingArm(a: Answers, mode: InputMode, policy: QueuePolicy, hasAction: bool): Arm
    requires a.current.Ok?
  {
    if !SameIncarnation(a.initial, a.current.value) then NoArm
    else
      var route := ChooseRoute(a.current.value, a.surface, mode, policy, hasAction);
      if route.Live? then LiveArm
      else if !route.Headless? then NoArm
      else HeadlessRouteArm(a, mode)
  }

  ghost predicate ArmDelivers(a: Answers, arm: Arm) {
    match arm
    case NoArm => false
    case LiveArm => a.live.LiveOk?
    case NativeArm => a.native.NativeOk?
    case HeadlessArm => a.headless.Completed? && a.headless.detail.deliveryState == "provider_applied"
  }

  ghost predicate ArmCrosses(a: Answers, arm: Arm) {
    match arm
    case NoArm => false
    case LiveArm => a.live.LiveOk? || a.live.submitted
    case NativeArm => true
    case HeadlessArm => a.headless.Completed? && a.headless.ran
  }

  /** The transports asked, in order: a live failure has no fallback, and the
      headless one is asked after the native one only if nothing was crossed. */
  ghost function ArmsAsked(a: Answers, mode: InputMode, arm: Arm): seq<Arm>
    requires a.current.Ok?
  {
    if arm.NoArm? then []
    else if arm.HeadlessArm? && TakesNativeArm(a.current.value, mode) then [NativeArm, HeadlessArm]
    else [arm]
  }

  /** The settling arm alone decides whether the target was delivered, whether its
      provider boundary was crossed and which transports were asked. */
  ghost predicate Settles(a: Answers, mode: InputMode, arm: Arm, step: Step,
                          asked: seq<Arm>, crossed: seq<string>, asked': seq<Arm>, crossed': seq<string>)
    requires a.current.Ok?
  {
    && !step.Aborted?
    && step.detail.uuid == a.initial.uuid
    && (step.Delivered? <==> ArmDelivers(a, arm))
    && crossed' == crossed + (if ArmCrosses(a, arm) then [a.initial.uuid] else [])
    && asked' == asked + ArmsAsked(a, mode, arm)
  }

  method DeliverOverLiveSurface(transports: Transports, a: Answers, mode: InputMode) returns (step: Step)
    requires AnswersFor(a) && a.current.Ok?
    modifies transports
    ensures Settles(a, mode, LiveArm, step, old(transports.asked), old(transports.crossed),
                    transports.asked, transports.crossed)
    ensures FollowsRoute(a, mode, Live, step, transports.asked[|old(transports.asked)|..])
  {
    var info := a.current.value;
    var result := transports.SubmitLive(info.uuid, a.live);
    if result.LiveOk? {
      return Delivered(result.detail);
    }
    return Failed(if result.partial.Some? then result.partial.value else Detail(info.uuid, "send_failed", Some(result.message)),
                  result.message);
  }

  method DeliverWithoutLiveSurface(transports: Transports, a: Answers, mode: InputMode) returns (step: Step)
    requires AnswersFor(a) && a.current.Ok?
    modifies transports
    ensures Settles(a, mode, HeadlessRouteArm(a, mode), step, old(transports.asked), old(transports.crossed),
                    transports.asked, transports.crossed)
    ensures FollowsHeadless(a, mode, step, transports.asked[|old(transports.asked)|..])
  {
    hide ForProvider, SpeaksNative;
    var info := a.current.value;
    ForProviderIff(info.provider);
    if mode.Message? && info.provider != "codex" && ForProvider(info.provider).Some? {
      var native := transports.DeliverNative(info.uuid, a.native);
      if native.NativeOk? {
        return Delivered(native.detail);
      }
      if native.boundaryCrossed {
        return Failed(Detail(info.uuid, "submitted_unconfirmed", Some(native.message)), native.message);
      }
      // Nothing reached the provider, so the headless fallback is safe.
    }
    var headless := transports.DeliverHeadless(info.uuid, a.headless);
    if headless.Busy? {
      return Failed(Rejected(headless.current.uuid, "conversation_leased"), "conversation_leased");
    }
    if headless.detail.deliveryState == "provider_applied" {
      return Delivered(headless.detail);
    }
    return Failed(headless.detail,
                  if headless.detail.error.Some? then headless.detail.error.value else "headless delivery failed");
  }

  /** "Codex never takes the native arm" is decided on the raw provider text while
      the protocol is looked up on the trimmed, lower-cased one. So a message
      routed headless to an agent with the codex protocol is offered to the native
      broker iff its provider is not spelled exactly "codex". */
  lemma CodexAvoidsNativeArmIffCanonical(a: Answers, mode: InputMode, policy: QueuePolicy, hasAction: bool)
    requires a.current.Ok? && SameIncarnation(a.initial, a.current.value)
    requires ChooseRoute(a.current.value, a.surface, mode, policy, hasAction).Headless?
    requires IsSpelled(a.current.value.provider, "codex")
    ensures NativeArm in ArmsAsked(a, mode, SettlingArm(a, mode, policy, hasAction))
       <==> a.current.value.provider != "codex"
  {
    hide ChooseRoute, ForProvider, IsSpelled;
    HeadlessIsMessage(a.current.value, a.surface, mode, policy, hasAction);
    ForProviderIff(a.current.value.provider);
    CodexHasProtocol(a.current.value, mode, policy);
  }

  lemma CodexHasProtocol(info: TargetInfo, mode: InputMode, policy: QueuePolicy)
    requires mode.Message? && ForProvider(info.provider) == Some(CodexAppServer)
    ensures TakesNativeArm(info, mode) <==> info.provider != "codex"
  {
    hide ForProvider;
  }

  lemma HeadlessIsMessage(info: TargetInfo, surface: Surface, mode: InputMode, policy: QueuePolicy, hasAction: bool)
    requires ChooseRoute(info, surface, mode, policy, hasAction).Headless?
    ensures mode.Message?
  {
    hide ChooseRoute, SpeaksNative, IsHeldBack;
    RouteIsSound(info, surface, mode, policy, hasAction);
  }

  /** Once a transport has crossed the boundary, no other one is asked: a live call
      stands alone, and the headless transport is never asked after a native call
      that crossed. */
  ghost predicate NoFallbackAfterCrossing(a: Answers, asked: seq<Arm>) {
    && (LiveArm in asked ==> asked == [LiveArm])
    && (NativeArm in asked && (a.native.NativeOk? || a.native.boundaryCrossed) ==> asked == [NativeArm])
    && (HeadlessArm in asked ==> asked == [HeadlessArm] || asked == [NativeArm, HeadlessArm])
  }

  lemma ArmsNeverFallBack(a: Answers, mode: InputMode, policy: QueuePolicy, hasAction: bool)
    requires a.current.Ok?
    ensures NoFallbackAfterCrossing(a, ArmsAsked(a, mode, SettlingArm(a, mode, policy, hasAction)))
  {
    hide ChooseRoute, ForProvider;
  }

  // ----- what becomes of a target -----

  /** The headless transport's answer. */
  ghost predicate IsHeadlessStep(a: Answers, step: Step) {
    match a.headless
    case Busy(current) => step == Failed(Rejected(current.uuid, "conversation_leased"), "conversation_leased")
    case Completed(detail, _) =>
      if detail.deliveryState == "provider_applied" then step == Delivered(detail)
      else step == Failed(detail, match detail.error case Some(message) => message case None => "headless delivery failed")
  }

  /** A message goes to the native provider first, unless it is codex as written; only
      if that answers without having crossed the boundary is a headless run tried. */
  ghost predicate FollowsHeadless(a: Answers, mode: InputMode, step: Step, asked: seq<Arm>)
    requires a.current.Ok?
  {
    var info := a.current.value;
    if !(mode.Message? && SpeaksNative(info.provider) && info.provider != "codex") then
      IsHeadlessStep(a, step) && asked == [HeadlessArm]
    else
      match a.native
      case NativeOk(detail) => step == Delivered(detail) && asked == [NativeArm]
      case NativeErr(message, crossed) =>
        if crossed then
          step == Failed(Detail(info.uuid, "submitted_unconfirmed", Some(message)), message) && asked == [NativeArm]
        else
          IsHeadlessStep(a, step) && asked == [NativeArm, HeadlessArm]
  }

  ghost predicate FollowsRoute(a: Answers, mode: InputMode, route: Route, step: Step, asked: seq<Arm>)
    requires a.current.Ok?
  {
    var uuid := a.current.value.uuid;
    match route
    case Reject(failure) => step == Failed(Detail(uuid, failure, Some(failure)), failure) && asked == []
    case Live =>
      && asked == [LiveArm]
      && (match a.live
          case LiveOk(detail) => step == Delivered(detail)
          case LiveErr(message, Some(detail), _) => step == Failed(detail, message)
          case LiveErr(message, None, _) => step == Failed(Detail(uuid, "send_failed", Some(message)), message))
    case Headless => FollowsHeadless(a, mode, step, asked)
    case Unreachable => false
  }

  /** An idempotency key may name the interaction of an earlier native delivery; any
      other delivery needs a new durable one. */
  ghost predicate MayHaveRecord(a: Answers, mode: InputMode, route: Route, hasKey: bool)
    requires a.current.Ok?
  {
    hasKey && mode.Message? && route.Headless? && SpeaksNative(a.current.value.provider)
  }

  /** What becomes of one target, in terms of what the outside answers: `asked` are the
      transports it was offered to. */
  ghost predicate IsVerdict(a: Answers, mode: InputMode, policy: QueuePolicy, hasAction: bool, hasKey: bool,
                            step: Step, asked: seq<Arm>)
  {
    match a.current
    case Err(error) => step == Aborted(error) && asked == []
    case Ok(info) =>
      if info.uuid != a.initial.uuid || info.incarnation != a.initial.incarnation then
        step == Failed(Detail(a.initial.uuid, "target_replaced", Some("target_replaced")), "target_replaced") && asked == []
      else
        exists route :: IsRoute(info, a.surface, mode, policy, hasAction, route)
                        && IsVerdictOnRoute(a, mode, route, hasKey, step, asked)
  }

  ghost predicate IsVerdictOnRoute(a: Answers, mode: InputMode, route: Route, hasKey: bool, step: Step, asked: seq<Arm>)
    requires a.current.Ok?
  {
    if MayHaveRecord(a, mode, route, hasKey) && a.nativeRecord.Err? then
      step == Aborted(a.nativeRecord.error) && asked == []
    else if (MayHaveRecord(a, mode, route, hasKey) ==> a.nativeRecord.value.None?) && a.interaction.Err? then
      step == Aborted(a.interaction.error) && asked == []
    else
      FollowsRoute(a, mode, route, step, asked)
  }

  lemma RouteVerdict(a: Answers, mode: InputMode, policy: QueuePolicy, hasAction: bool, hasKey: bool, step: Step,
                     asked: seq<Arm>)
    requires a.current.Ok? && SameIncarnation(a.initial, a.current.value)
    requires IsVerdictOnRoute(a, mode, ChooseRoute(a.current.value, a.surface, mode, policy, hasAction), hasKey, step, asked)
    ensures IsVerdict(a, mode, policy, hasAction, hasKey, step, asked)
  {
    hide ChooseRoute, IsRoute, IsVerdictOnRoute;
    RouteIsSound(a.current.value, a.surface, mode, policy, hasAction);
  }

  /** One iteration of the delivery loop. */
  method DeliverToOne(transports: Transports, a: Answers, mode: InputMode, policy: QueuePolicy,
                      hasAction: bool, hasKey: bool) returns (step: Step)
    requires AnswersFor(a)
    modifies transports
    ensures step.Aborted? <==> Aborts(a, mode, policy, hasAction, hasKey)
    ensures step.Aborted? ==> transports.crossed == old(transports.crossed) && transports.asked == old(transports.asked)
    ensures !step.Aborted? ==>
      && a.current.Ok?
      && Settles(a, mode, SettlingArm(a, mode, policy, hasAction), step,
                 old(transports.asked), old(transports.crossed), transports.asked, transports.crossed)
    ensures |transports.crossed| <= |old(transports.crossed)| + 1
    ensures NoFallbackAfterCrossing(a, transports.asked[|old(transports.asked)|..])
    ensures IsVerdict(a, mode, policy, hasAction, hasKey, step, transports.asked[|old(transports.asked)|..])
  {
    hide ChooseRoute, ForProvider, DecideDeliveryRoute, TakesNativeArm, SpeaksNative, IsRoute, FollowsHeadless;
    if a.current.Ok? {
      ArmsNeverFallBack(a, mode, policy, hasAction);
    }
    if a.current.Err? {
      return Aborted(a.current.error);
    }
    var info := a.current.value;
    if !SameIncarnation(a.initial, info) {
      return Failed(Rejected(a.initial.uuid, "target_replaced"), "target_replaced");
    }
    var route := ChooseRoute(info, a.surface, mode, policy, hasAction);
    RouteIsSound(info, a.surface, mode, policy, hasAction);
    ForProviderIff(info.provider);
    var recorded: Option<string> := None;
    if LooksUpNativeRecord(info, route, mode, hasKey) {
      if a.nativeRecord.Err? {
        return Aborted(a.nativeRecord.error);
      }
      recorded := a.nativeRecord.value;
    }
    if recorded.None? && a.interaction.Err? {
      return Aborted(a.interaction.error);
    }
    match route {
      case Reject(failure) =>
        return Failed(Rejected(info.uuid, failure), failure);
      case Live =>
        step := DeliverOverLiveSurface(transports, a, mode);
      case Headless =>
        step := DeliverWithoutLiveSurface(transports, a, mode);
      case Unreachable =>
        assert false;
    }
  }

  // ----- the whole call -----

  datatype Outcome =
    | AllDelivered(delivery: seq<Detail>)
    | NotAllDelivered(delivered: nat, failures: seq<string>, delivery: seq<Detail>)
    | NoTargets
    | CallAborted(at: nat, error: string)

  function Uuids(targets: seq<Answers>): (r: seq<string>)
    ensures |r| == |targets|
    ensures forall i :: 0 <= i < |r| ==> r[i] == targets[i].initial.uuid
  {
    seq(|targets|, i requires 0 <= i < |targets| => targets[i].initial.uuid)
  }

  /** Exactly one detail for each target, in target order. */
  ghost predicate Accounted(targets: seq<Answers>, delivery: seq<Detail>) {
    |delivery| == |targets| && forall i :: 0 <= i < |targets| ==> delivery[i].uuid == targets[i].initial.uuid
  }

  ghost predicate TargetDelivered(a: Answers, mode: InputMode, policy: QueuePolicy, hasAction: bool) {
    a.current.Ok? && ArmDelivers(a, SettlingArm(a, mode, policy, hasAction))
  }

  ghost predicate TargetCrosses(a: Answers, mode: InputMode, policy: QueuePolicy, hasAction: bool) {
    a.current.Ok? && ArmCrosses(a, SettlingArm(a, mode, policy, hasAction))
  }

  /** The boundary crossings of a list of targets: one at most for each entry. */
  ghost function Crossings(targets: seq<Answers>, mode: InputMode, policy: QueuePolicy, hasAction: bool): seq<string> {
    if targets == [] then []
    else
      var last := targets[|targets| - 1];
      Crossings(targets[..|targets| - 1], mode, policy, hasAction)
      + if TargetCrosses(last, mode, policy, hasAction) then [last.initial.uuid] else []
  }

  lemma {:induction false} EachTargetCrossesAtMostOnce(targets: seq<Answers>, mode: InputMode, policy: QueuePolicy,
                                                       hasAction: bool)
    ensures multiset(Crossings(targets, mode, policy, hasAction)) <= multiset(Uuids(targets))
  {
    hide TargetCrosses;
    if targets != [] {
      var n := |targets| - 1;
      EachTargetCrossesAtMostOnce(targets[..n], mode, policy, hasAction);
      assert Uuids(targets) == Uuids(targets[..n]) + [targets[n].initial.uuid];
    }
  }

  /** The transports asked for a list of targets, target by target. */
  ghost function Asks(targets: seq<Answers>, mode: InputMode, policy: QueuePolicy, hasAction: bool): seq<Arm> {
    if targets == [] then []
    else
      var last := targets[|targets| - 1];
      Asks(targets[..|targets| - 1], mode, policy, hasAction)
      + if last.current.Ok? then ArmsAsked(last, mode, SettlingArm(last, mode, policy, hasAction)) else []
  }

  /** The transports asked in the turn of the i-th target. */
  ghost predicate IsTurn(targets: seq<Answers>, mode: InputMode, policy: QueuePolicy, hasAction: bool, i: nat,
                         from: nat, to: nat)
  {
    && i < |targets|
    && from == |Asks(targets[..i], mode, policy, hasAction)|
    && to == |Asks(targets[..i + 1], mode, policy, hasAction)|
  }

  /** In what was asked, no target's own turn goes on after a crossing. */
  ghost predicate NoTurnFallsBack(targets: seq<Answers>, mode: InputMode, policy: QueuePolicy, hasAction: bool,
                                  asked: seq<Arm>)
  {
    forall i: nat, from: nat, to: nat :: IsTurn(targets, mode, policy, hasAction, i, from, to) ==>
      from <= to <= |asked| && NoFallbackAfterCrossing(targets[i], asked[from..to])
  }

  ghost predicate AllTargetsDelivered(targets: seq<Answers>, mode: InputMode, policy: QueuePolicy, hasAction: bool) {
    forall i :: 0 <= i < |targets| ==> TargetDelivered(targets[i], mode, policy, hasAction)
  }

  ghost predicate NoneAborts(targets: seq<Answers>, mode: InputMode, policy: QueuePolicy, hasAction: bool, hasKey: bool) {
    forall i :: 0 <= i < |targets| ==> !Aborts(targets[i], mode, policy, hasAction, hasKey)
  }

  ghost predicate AllAnswerFor(targets: seq<Answers>) {
    forall i :: 0 <= i < |targets| ==> AnswersFor(targets[i])
  }

  /** What a finished call says, against the targets it was given. */
  ghost predicate Conserved(targets: seq<Answers>, mode: InputMode, policy: QueuePolicy, hasAction: bool, hasKey: bool,
                            outcome: Outcome)
  {
    match outcome
    case NoTargets => targets == []
    case CallAborted(at, error) =>
      && at < |targets|
      && NoneAborts(targets[..at], mode, policy, hasAction, hasKey)
      && Aborts(targets[at], mode, policy, hasAction, hasKey)
    case AllDelivered(delivery) =>
      && targets != []
      && NoneAborts(targets, mode, policy, hasAction, hasKey)
      && Accounted(targets, delivery)
      && AllTargetsDelivered(targets, mode, policy, hasAction)
    case NotAllDelivered(delivered, failures, delivery) =>
      && targets != []
      && NoneAborts(targets, mode, policy, hasAction, hasKey)
      && Accounted(targets, delivery)
      && delivered + |failures| == |targets|
      && !AllTargetsDelivered(targets, mode, policy, hasAction)
  }

  /** The detail tells what became of the target. */
  ghost predicate Tells(a: Answers, mode: InputMode, policy: QueuePolicy, hasAction: bool, hasKey: bool, detail: Detail) {
    exists step, asked :: IsVerdict(a, mode, policy, hasAction, hasKey, step, asked) && !step.Aborted? && step.detail == detail
  }

  ghost predicate AllTell(targets: seq<Answers>, mode: InputMode, policy: QueuePolicy, hasAction: bool, hasKey: bool,
                          delivery: seq<Detail>)
  {
    |delivery| <= |targets| && forall i :: 0 <= i < |delivery| ==> Tells(targets[i], mode, policy, hasAction, hasKey, delivery[i])
  }

  ghost predicate OutcomeTells(targets: seq<Answers>, mode: InputMode, policy: QueuePolicy, hasAction: bool, hasKey: bool,
                               outcome: Outcome)
  {
    match outcome
    case AllDelivered(delivery) => AllTell(targets, mode, policy, hasAction, hasKey, delivery)
    case NotAllDelivered(_, _, delivery) => AllTell(targets, mode, policy, hasAction, hasKey, delivery)
    case CallAborted(at, error) =>
      at < |targets| && exists asked :: IsVerdict(targets[at], mode, policy, hasAction, hasKey, Aborted(error), asked)
    case NoTargets => true
  }

  lemma NothingToTell(targets: seq<Answers>, mode: InputMode, policy: QueuePolicy, hasAction: bool, hasKey: bool)
    ensures AllTell(targets, mode, policy, hasAction, hasKey, [])
  {}

  lemma OneMoreTells(targets: seq<Answers>, mode: InputMode, policy: QueuePolicy, hasAction: bool, hasKey: bool,
                     delivery: seq<Detail>, step: Step, asked: seq<Arm>)
    requires AllTell(targets, mode, policy, hasAction, hasKey, delivery) && |delivery| < |targets| && !step.Aborted?
    requires IsVerdict(targets[|delivery|], mode, policy, hasAction, hasKey, step, asked)
    ensures AllTell(targets, mode, policy, hasAction, hasKey, delivery + [step.detail])
  {
    hide IsVerdict;
    assert Tells(targets[|delivery|], mode, policy, hasAction, hasKey, step.detail);
    hide Tells;
  }

  /** The targets the loop finished with. */
  function Reached(targets: seq<Answers>, outcome: Outcome): (r: seq<Answers>)
    ensures r <= targets
  {
    if outcome.CallAborted? && outcome.at <= |targets| then targets[..outcome.at] else targets
  }

  /** Delivery to arbitrarily many targets. Each listed target's provider boundary
      is crossed at most once, and after a crossing no other transport is asked for
      it; unless a lookup or persistence error aborts the call, the details account
      for every target and the call succeeds iff every target was delivered. */
  method DeliverMessage(transports: Transports, targets: seq<Answers>, mode: InputMode, policy: QueuePolicy,
                        hasAction: bool, hasKey: bool) returns (outcome: Outcome)
    requires AllAnswerFor(targets)
    modifies transports
    ensures Conserved(targets, mode, policy, hasAction, hasKey, outcome)
    ensures transports.crossed == old(transports.crossed) + Crossings(Reached(targets, outcome), mode, policy, hasAction)
    ensures multiset(transports.crossed[|old(transports.crossed)|..]) <= multiset(Uuids(targets))
    ensures transports.asked == old(transports.asked) + Asks(Reached(targets, outcome), mode, policy, hasAction)
    ensures NoTurnFallsBack(Reached(targets, outcome), mode, policy, hasAction, transports.asked[|old(transports.asked)|..])
    ensures OutcomeTells(targets, mode, policy, hasAction, hasKey, outcome)
  {
    hide AllTell, IsVerdict, Aborts, SettlingArm, ArmDelivers, ArmCrosses, ArmsAsked, AnswersFor, Crossings, Asks, Uuids, Progress,
      Conserved, NoTurnFallsBack;
    NothingDone(targets, mode, policy, hasAction, hasKey);
    if targets == [] {
      NobodyFallsBack(targets, mode, policy, hasAction);
      assert transports.asked[|old(transports.asked)|..] == [];
      return NoTargets;
    }
    var delivered := 0;
    var failures: seq<string> := [];
    var delivery: seq<Detail> := [];
    assert AllTell(targets, mode, policy, hasAction, hasKey, delivery) by {
      NothingToTell(targets, mode, policy, hasAction, hasKey);
    }
    ghost var asks: seq<Arm>, crossings: seq<string> := [], [];
    var k := 0;
    while k < |targets|
      invariant k <= |targets|
      invariant Progress(targets, k, mode, policy, hasAction, hasKey, delivered, |failures|, delivery, asks, crossings)
      invariant transports.crossed == old(transports.crossed) + crossings
      invariant transports.asked == old(transports.asked) + asks
      invariant |delivery| == k && AllTell(targets, mode, policy, hasAction, hasKey, delivery)
    {
      ghost var before := transports.asked;
      var step := DeliverToOne(transports, targets[k], mode, policy, hasAction, hasKey);
      if step.Aborted? {
        outcome := CallAborted(k, step.error);
        Stopped(targets, k, mode, policy, hasAction, hasKey, delivered, |failures|, delivery, asks, crossings, outcome);
        assert transports.crossed[|old(transports.crossed)|..] == crossings;
        NobodyFallsBack(Reached(targets, outcome), mode, policy, hasAction);
        assert transports.asked[|old(transports.asked)|..] == asks;
        return;
      }
      OneMore(targets, k, mode, policy, hasAction, hasKey, delivered, |failures|, delivery, asks, crossings, step);
      OneMoreTells(targets, mode, policy, hasAction, hasKey, delivery, step, transports.asked[|before|..]);
      ghost var arm := SettlingArm(targets[k], mode, policy, hasAction);
      asks := asks + ArmsAsked(targets[k], mode, arm);
      crossings := crossings + if ArmCrosses(targets[k], arm) then [targets[k].initial.uuid] else [];
      delivery := delivery + [step.detail];
      if step.Delivered? {
        delivered := delivered + 1;
      } else {
        failures := failures + [step.failure];
      }
      k := k + 1;
    }
    if delivered == 0 {
      outcome := NotAllDelivered(0, failures, delivery);
    } else if failures != [] {
      outcome := NotAllDelivered(delivered, failures, delivery);
    } else {
      outcome := AllDelivered(delivery);
    }
    Finished(targets, mode, policy, hasAction, hasKey, delivered, failures, delivery, asks, crossings, outcome);
    assert transports.crossed[|old(transports.crossed)|..] == crossings;
    NobodyFallsBack(Reached(targets, outcome), mode, policy, hasAction);
    assert transports.asked[|old(transports.asked)|..] == asks;
  }

  /** What holds after the first k targets. */
  ghost predicate Progress(targets: seq<Answers>, k: nat, mode: InputMode, policy: QueuePolicy, hasAction: bool, hasKey: bool,
                           delivered: nat, failed: nat, delivery: seq<Detail>, asks: seq<Arm>, crossings: seq<string>)
  {
    && k <= |targets|
    && NoneAborts(targets[..k], mode, policy, hasAction, hasKey)
    && Accounted(targets[..k], delivery)
    && delivered + failed == k
    && (failed == 0 <==> AllTargetsDelivered(targets[..k], mode, policy, hasAction))
    && crossings == Crossings(targets[..k], mode, policy, hasAction)
    && asks == Asks(targets[..k], mode, policy, hasAction)
  }

  lemma {:induction false} AsksOfPrefix(targets: seq<Answers>, k: nat, mode: InputMode, policy: QueuePolicy, hasAction: bool)
    requires k <= |targets|
    ensures Asks(targets[..k], mode, policy, hasAction) <= Asks(targets, mode, policy, hasAction)
  {
    hide ArmsAsked, SettlingArm;
    var n := |targets| - 1;
    if k == |targets| {
      assert targets[..k] == targets;
    } else {
      AsksOfPrefix(targets[..n], k, mode, policy, hasAction);
      assert targets[..n][..k] == targets[..k];
    }
  }

  lemma NobodyFallsBack(targets: seq<Answers>, mode: InputMode, policy: QueuePolicy, hasAction: bool)
    ensures NoTurnFallsBack(targets, mode, policy, hasAction, Asks(targets, mode, policy, hasAction))
  {
    hide NoFallbackAfterCrossing, ArmsAsked, SettlingArm, Asks;
    var asked := Asks(targets, mode, policy, hasAction);
    forall i: nat, from: nat, to: nat | IsTurn(targets, mode, policy, hasAction, i, from, to)
      ensures from <= to <= |asked| && NoFallbackAfterCrossing(targets[i], asked[from..to])
    {
      AsksOfPrefix(targets, i + 1, mode, policy, hasAction);
      ExtendPrefix(targets, i, mode, policy, hasAction, false);
      if targets[i].current.Ok? {
        ArmsNeverFallBack(targets[i], mode, policy, hasAction);
        assert asked[from..to] == ArmsAsked(targets[i], mode, SettlingArm(targets[i], mode, policy, hasAction));
      } else {
        AskingNothing(targets[i]);
        assert asked[from..to] == [];
      }
    }
  }

  lemma AskingNothing(a: Answers)
    ensures NoFallbackAfterCrossing(a, [])
  {}

  lemma NothingDone(targets: seq<Answers>, mode: InputMode, policy: QueuePolicy, hasAction: bool, hasKey: bool)
    ensures Progress(targets, 0, mode, policy, hasAction, hasKey, 0, 0, [], [], [])
    ensures targets == [] ==>
      && Conserved(targets, mode, policy, hasAction, hasKey, NoTargets)
      && Crossings(targets, mode, policy, hasAction) == [] && Asks(targets, mode, policy, hasAction) == []
  {
    EmptyPrefix(targets, mode, policy, hasAction, hasKey);
  }

  lemma OneMore(targets: seq<Answers>, k: nat, mode: InputMode, policy: QueuePolicy, hasAction: bool, hasKey: bool,
                delivered: nat, failed: nat, delivery: seq<Detail>, asks: seq<Arm>, crossings: seq<string>, step: Step)
    requires Progress(targets, k, mode, policy, hasAction, hasKey, delivered, failed, delivery, asks, crossings)
    requires k < |targets| && !step.Aborted? && targets[k].current.Ok? && !Aborts(targets[k], mode, policy, hasAction, hasKey)
    requires step.detail.uuid == targets[k].initial.uuid
    requires step.Delivered? <==> ArmDelivers(targets[k], SettlingArm(targets[k], mode, policy, hasAction))
    ensures var arm := SettlingArm(targets[k], mode, policy, hasAction);
            Progress(targets, k + 1, mode, policy, hasAction, hasKey,
                     if step.Delivered? then delivered + 1 else delivered,
                     if step.Delivered? then failed else failed + 1,
                     delivery + [step.detail], asks + ArmsAsked(targets[k], mode, arm),
                     crossings + if ArmCrosses(targets[k], arm) then [targets[k].initial.uuid] else [])
  {
    hide Aborts, SettlingArm, ArmDelivers, ArmCrosses, ArmsAsked, Crossings, Asks, NoneAborts, AllTargetsDelivered, Accounted;
    ExtendPrefix(targets, k, mode, policy, hasAction, hasKey);
    ExtendDelivery(targets, k, delivery, step.detail);
  }

  lemma Stopped(targets: seq<Answers>, k: nat, mode: InputMode, policy: QueuePolicy, hasAction: bool, hasKey: bool,
                delivered: nat, failed: nat, delivery: seq<Detail>, asks: seq<Arm>, crossings: seq<string>, outcome: Outcome)
    requires Progress(targets, k, mode, policy, hasAction, hasKey, delivered, failed, delivery, asks, crossings)
    requires k < |targets| && Aborts(targets[k], mode, policy, hasAction, hasKey)
    requires outcome.CallAborted? && outcome.at == k
    ensures Conserved(targets, mode, policy, hasAction, hasKey, outcome)
    ensures crossings == Crossings(Reached(targets, outcome), mode, policy, hasAction)
    ensures asks == Asks(Reached(targets, outcome), mode, policy, hasAction)
    ensures multiset(crossings) <= multiset(Uuids(targets))
  {
    hide Aborts, Crossings, Asks, NoneAborts, Accounted;
    PrefixCrossesAtMostOnce(targets, k, mode, policy, hasAction);
  }

  lemma Finished(targets: seq<Answers>, mode: InputMode, policy: QueuePolicy, hasAction: bool, hasKey: bool,
                 delivered: nat, failures: seq<string>, delivery: seq<Detail>, asks: seq<Arm>, crossings: seq<string>,
                 outcome: Outcome)
    requires targets != []
    requires Progress(targets, |targets|, mode, policy, hasAction, hasKey, delivered, |failures|, delivery, asks, crossings)
    requires outcome == if delivered == 0 || failures != [] then NotAllDelivered(delivered, failures, delivery)
                        else AllDelivered(delivery)
    ensures Conserved(targets, mode, policy, hasAction, hasKey, outcome)
    ensures crossings == Crossings(Reached(targets, outcome), mode, policy, hasAction)
    ensures asks == Asks(Reached(targets, outcome), mode, policy, hasAction)
    ensures multiset(crossings) <= multiset(Uuids(targets))
  {
    hide Crossings, Asks, NoneAborts, Accounted, AllTargetsDelivered;
    assert targets[..|targets|] == targets;
    EachTargetCrossesAtMostOnce(targets, mode, policy, hasAction);
  }

  lemma EmptyPrefix(targets: seq<Answers>, mode: InputMode, policy: QueuePolicy, hasAction: bool, hasKey: bool)
    ensures targets[..0] == []
    ensures NoneAborts([], mode, policy, hasAction, hasKey)
    ensures AllTargetsDelivered([], mode, policy, hasAction)
    ensures Accounted([], [])
    ensures Crossings([], mode, policy, hasAction) == []
    ensures Asks([], mode, policy, hasAction) == []
  {}

  lemma PrefixCrossesAtMostOnce(targets: seq<Answers>, k: nat, mode: InputMode, policy: QueuePolicy, hasAction: bool)
    requires k <= |targets|
    ensures multiset(Crossings(targets[..k], mode, policy, hasAction)) <= multiset(Uuids(targets))
  {
    hide Crossings;
    EachTargetCrossesAtMostOnce(targets[..k], mode, policy, hasAction);
    assert Uuids(targets) == Uuids(targets[..k]) + Uuids(targets[k..]);
  }

  lemma ExtendDelivery(targets: seq<Answers>, k: nat, delivery: seq<Detail>, detail: Detail)
    requires k < |targets| && Accounted(targets[..k], delivery) && detail.uuid == targets[k].initial.uuid
    ensures Accounted(targets[..k + 1], delivery + [detail])
  {}

  lemma ExtendDelivered(targets: seq<Answers>, k: nat, mode: InputMode, policy: QueuePolicy, hasAction: bool)
    requires k < |targets|
    ensures AllTargetsDelivered(targets[..k + 1], mode, policy, hasAction)
       <==> (AllTargetsDelivered(targets[..k], mode, policy, hasAction)
             && TargetDelivered(targets[k], mode, policy, hasAction))
  {
    hide TargetDelivered;
    assert targets[..k + 1] == targets[..k] + [targets[k]];
  }

  lemma ExtendUnaborted(targets: seq<Answers>, k: nat, mode: InputMode, policy: QueuePolicy, hasAction: bool, hasKey: bool)
    requires k < |targets|
    ensures NoneAborts(targets[..k + 1], mode, policy, hasAction, hasKey)
       <==> (NoneAborts(targets[..k], mode, policy, hasAction, hasKey)
             && !Aborts(targets[k], mode, policy, hasAction, hasKey))
  {
    hide Aborts;
    assert targets[..k + 1] == targets[..k] + [targets[k]];
  }

  lemma ExtendCalls(targets: seq<Answers>, k: nat, mode: InputMode, policy: QueuePolicy, hasAction: bool)
    requires k < |targets|
    ensures Crossings(targets[..k + 1], mode, policy, hasAction)
         == Crossings(targets[..k], mode, policy, hasAction)
            + (if TargetCrosses(targets[k], mode, policy, hasAction) then [targets[k].initial.uuid] else [])
    ensures Asks(targets[..k + 1], mode, policy, hasAction)
         == Asks(targets[..k], mode, policy, hasAction)
            + (if targets[k].current.Ok? then ArmsAsked(targets[k], mode, SettlingArm(targets[k], mode, policy, hasAction)) else [])
  {
    hide TargetCrosses, ArmsAsked, SettlingArm;
    var more := targets[..k + 1];
    assert more[..|more| - 1] == targets[..k] && more[|more| - 1] == targets[k];
  }

  lemma ExtendPrefix(targets: seq<Answers>, k: nat, mode: InputMode, policy: QueuePolicy, hasAction: bool, hasKey: bool)
    requires k < |targets|
    ensures AllTargetsDelivered(targets[..k + 1], mode, policy, hasAction)
       <==> (AllTargetsDelivered(targets[..k], mode, policy, hasAction)
             && TargetDelivered(targets[k], mode, policy, hasAction))
    ensures NoneAborts(targets[..k + 1], mode, policy, hasAction, hasKey)
       <==> (NoneAborts(targets[..k], mode, policy, hasAction, hasKey)
             && !Aborts(targets[k], mode, policy, hasAction, hasKey))
    ensures Crossings(targets[..k + 1], mode, policy, hasAction)
         == Crossings(targets[..k], mode, policy, hasAction)
            + (if TargetCrosses(targets[k], mode, policy, hasAction) then [targets[k].initial.uuid] else [])
    ensures Asks(targets[..k + 1], mode, policy, hasAction)
         == Asks(targets[..k], mode, policy, hasAction)
            + (if targets[k].current.Ok? then ArmsAsked(targets[k], mode, SettlingArm(targets[k], mode, policy, hasAction)) else [])
  {
    hide Aborts, TargetDelivered, TargetCrosses, ArmsAsked, SettlingArm, AllTargetsDelivered, NoneAborts, Crossings, Asks;
    ExtendDelivered(targets, k, mode, policy, hasAction);
    ExtendUnaborted(targets, k, mode, policy, hasAction, hasKey);
    ExtendCalls(targets, k, mode, policy, hasAction);
  }
}
