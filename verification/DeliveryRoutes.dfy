/** Where a message goes: the delivery routes (src-tauri/src/control.rs,
    decide_delivery_route and the choice around it). */
module DeliveryRoutes {
  import opened Common

  datatype InputMode = Message | Command | ApprovalAction

  datatype QueuePolicy = QueueIfBusy | LiveOnly | MailboxOnly

  /** `incarnation` is the identity of the agent's configuration handle; clearing
      or re-creating the agent replaces it. */
  datatype TargetInfo = TargetInfo(uuid: string, provider: string, status: string, incarnation: nat)

  /** Unreachable stands for the `unreachable!` arms. */
  datatype Route = Live | Headless | Reject(failure: string) | Unreachable

  datatype Protocol = ClaudeStreamJson | CodexAppServer | AntigravityStreamJson | OpenCodeAcp | PiRpc

  // ----- routes -----

  function LowerAscii(s: string): (r: string)
    ensures |r| == |s|
  {
    if s == "" then ""
    else [if 'A' <= s[0] <= 'Z' then (s[0] as int + 32) as char else s[0]] + LowerAscii(s[1..])
  }

  /** NativeProviderProtocol::for_provider. */
  function ForProvider(provider: string): Option<Protocol> {
    var name := LowerAscii(Trim(provider));
    if name == "claude" then Some(ClaudeStreamJson)
    else if name == "codex" then Some(CodexAppServer)
    else if name == "antigravity" then Some(AntigravityStreamJson)
    else if name == "opencode" then Some(OpenCodeAcp)
    else if name == "pi" then Some(PiRpc)
    else None
  }

  function DecideDeliveryRoute(status: string, mode: InputMode, policy: QueuePolicy, hasAction: bool): Route {
    if mode.ApprovalAction? then
      if hasAction && status == "action_required" then Live else Reject("not_input_ready")
    else if policy.MailboxOnly? then Reject("mailbox_only")
    else if status == "idle" then Live
    else if status == "processing" then
      match policy
      case QueueIfBusy => Reject("target_processing")
      case LiveOnly => Reject("not_input_ready")
      case MailboxOnly => Unreachable
    else if status == "action_required" then
      if policy.QueueIfBusy? && mode.Message? then Reject("target_action_required") else Reject("not_input_ready")
    else if status == "off" || status == "error" then
      match policy
      case QueueIfBusy => if mode.Message? then Headless else Reject("queued_not_live")
      case MailboxOnly => Reject("queued_not_live")
      case LiveOnly => Reject("target_not_live")
    else if status == "headless" then
      match policy
      case QueueIfBusy => Reject("conversation_leased")
      case LiveOnly => Reject("conversation_leased")
      case MailboxOnly => Unreachable
    else Reject("not_input_ready")
  }

  predicate StatusUsesHeadlessDelivery(status: string) {
    status == "off" || status == "error" || status == "headless"
  }

  predicate RoutesNativeWithoutLiveSurface(provider: string, mode: InputMode, policy: QueuePolicy, liveSurface: bool) {
    !liveSurface && mode.Message? && policy.QueueIfBusy? && ForProvider(provider).Some?
  }

  predicate IdleAllowsLive(info: TargetInfo, policy: QueuePolicy) {
    policy.LiveOnly? && info.provider == "claude" && info.status == "idle"
  }

  /** What the surroundings say about a target while it is being routed. */
  datatype Surface = Surface(liveSurface: bool, knownNotReady: bool, leased: bool)

  function ChooseRoute(info: TargetInfo, surface: Surface, mode: InputMode, policy: QueuePolicy, hasAction: bool): Route {
    if mode.ApprovalAction? || policy.MailboxOnly? then
      DecideDeliveryRoute(info.status, mode, policy, hasAction)
    else if RoutesNativeWithoutLiveSurface(info.provider, mode, policy, surface.liveSurface) then
      Headless
    else if && !StatusUsesHeadlessDelivery(info.status)
            && surface.knownNotReady
            && !IdleAllowsLive(info, policy) then
      match policy
      case QueueIfBusy => Reject("provider_input_not_ready")
      case LiveOnly => Reject("not_input_ready")
      case MailboxOnly => Unreachable
    else if surface.leased then
      match policy
      case QueueIfBusy => Reject("conversation_leased")
      case LiveOnly => Reject("conversation_leased")
      case MailboxOnly => Unreachable
    else
      DecideDeliveryRoute(info.status, mode, policy, hasAction)
  }

  // ----- what the names of a provider are -----

  ghost predicate IsBlankText(s: string) {
    forall i :: 0 <= i < |s| ==> IsWhitespace(s[i])
  }

  /** The same letters in either case. */
  ghost predicate SameLetters(s: string, name: string) {
    |s| == |name| && forall i :: 0 <= i < |s| ==>
      s[i] == name[i] || ('A' <= s[i] <= 'Z' && name[i] as int == s[i] as int + 32)
  }

  /** The text is the name, in any case and between any blanks. */
  ghost predicate IsSpelled(text: string, name: string) {
    exists i, j :: IsSpelledAt(text, name, i, j)
  }

  ghost predicate IsSpelledAt(text: string, name: string, i: int, j: int) {
    0 <= i <= j <= |text| && IsBlankText(text[..i]) && IsBlankText(text[j..]) && SameLetters(text[i..j], name)
  }

  ghost predicate IsLowerName(name: string) {
    name != "" && forall i :: 0 <= i < |name| ==> 'a' <= name[i] <= 'z'
  }

  /** One of the five native protocols speaks to this provider. */
  ghost predicate SpeaksNative(provider: string) {
    || IsSpelled(provider, "claude") || IsSpelled(provider, "codex") || IsSpelled(provider, "antigravity")
    || IsSpelled(provider, "opencode") || IsSpelled(provider, "pi")
  }

  lemma {:induction false} LowerAt(s: string, i: nat)
    requires i < |s|
    ensures LowerAscii(s)[i] == if 'A' <= s[i] <= 'Z' then (s[i] as int + 32) as char else s[i]
  {
    if i > 0 {
      LowerAt(s[1..], i - 1);
    }
  }

  lemma LowerIsSameLetters(s: string, name: string)
    requires IsLowerName(name)
    ensures LowerAscii(s) == name <==> SameLetters(s, name)
  {
    hide LowerAscii;
    forall i: nat | i < |s|
      ensures LowerAscii(s)[i] == if 'A' <= s[i] <= 'Z' then (s[i] as int + 32) as char else s[i]
    {
      LowerAt(s, i);
    }
  }

  lemma {:induction false} TrimStartShape(s: string)
    ensures exists i :: 0 <= i <= |s| && IsBlankText(s[..i]) && TrimStart(s) == s[i..]
  {
    if s != "" && IsWhitespace(s[0]) {
      TrimStartShape(s[1..]);
      var i :| 0 <= i <= |s[1..]| && IsBlankText(s[1..][..i]) && TrimStart(s[1..]) == s[1..][i..];
      assert s[..i + 1] == [s[0]] + s[1..][..i] && s[i + 1..] == s[1..][i..];
    } else {
      assert IsBlankText(s[..0]) && s[0..] == s;
    }
  }

  lemma {:induction false} TrimEndShape(s: string)
    ensures exists j :: 0 <= j <= |s| && IsBlankText(s[j..]) && TrimEnd(s) == s[..j]
  {
    if s != "" && IsWhitespace(s[|s| - 1]) {
      var front, last := s[..|s| - 1], s[|s| - 1];
      TrimEndShape(front);
      var j :| 0 <= j <= |front| && IsBlankText(front[j..]) && TrimEnd(front) == front[..j];
      assert s == front + [last];
      BlankGrows(front, j, last);
      assert s[..j] == front[..j];
    } else {
      assert IsBlankText(s[|s|..]) && s[..|s|] == s;
    }
  }

  lemma BlankGrows(front: string, j: int, last: char)
    requires 0 <= j <= |front| && IsBlankText(front[j..]) && IsWhitespace(last)
    ensures IsBlankText((front + [last])[j..])
  {
    hide IsWhitespace;
    assert (front + [last])[j..] == front[j..] + [last];
  }

  lemma {:induction false} TrimStartSkips(s: string, i: nat)
    requires i < |s| && IsBlankText(s[..i]) && !IsWhitespace(s[i])
    ensures TrimStart(s) == s[i..]
  {
    if i > 0 {
      assert s[0] == s[..i][0] && s[1..][..i - 1] == s[..i][1..];
      TrimStartSkips(s[1..], i - 1);
    }
  }

  lemma {:induction false} TrimEndSkips(s: string, j: nat)
    requires 0 < j <= |s| && IsBlankText(s[j..]) && !IsWhitespace(s[j - 1])
    ensures TrimEnd(s) == s[..j]
  {
    if j < |s| {
      assert s[|s| - 1] == s[j..][|s| - 1 - j];
      var front := s[..|s| - 1];
      assert forall k :: 0 <= k < |front[j..]| ==> front[j..][k] == s[j..][k];
      TrimEndSkips(front, j);
      assert front[..j] == s[..j];
    } else {
      assert s[..j] == s;
    }
  }

  lemma TrimmedIsSpelled(text: string, name: string)
    requires IsLowerName(name)
    ensures LowerAscii(Trim(text)) == name <==> IsSpelled(text, name)
  {
    LowerIsSameLetters(Trim(text), name);
    hide LowerAscii, Trim, SameLetters, IsLowerName, IsSpelledAt;
    if SameLetters(Trim(text), name) {
      var i, j := TrimShape(text);
      SpelledByTrim(text, name, i, j);
    }
    if i, j :| IsSpelledAt(text, name, i, j) {
      TrimOfSpelled(text, name, i, j);
    }
  }

  lemma TrimShape(text: string) returns (i: nat, j: nat)
    ensures i <= j <= |text| && IsBlankText(text[..i]) && IsBlankText(text[j..]) && Trim(text) == text[i..j]
  {
    hide IsBlankText, TrimStart, TrimEnd;
    TrimStartShape(text);
    i :| 0 <= i <= |text| && IsBlankText(text[..i]) && TrimStart(text) == text[i..];
    var rest := text[i..];
    TrimEndShape(rest);
    var k :| 0 <= k <= |rest| && IsBlankText(rest[k..]) && TrimEnd(rest) == rest[..k];
    SliceOfSlice(text, i, k);
    j := i + k;
  }

  lemma SliceOfSlice(text: string, i: nat, k: nat)
    requires i + k <= |text|
    ensures text[i..][..k] == text[i..i + k] && text[i..][k..] == text[i + k..]
  {}

  lemma SpelledByTrim(text: string, name: string, i: int, j: int)
    requires 0 <= i <= j <= |text| && IsBlankText(text[..i]) && IsBlankText(text[j..]) && SameLetters(text[i..j], name)
    ensures IsSpelledAt(text, name, i, j)
  {}

  lemma TrimOfSpelled(text: string, name: string, i: int, j: int)
    requires IsLowerName(name) && IsSpelledAt(text, name, i, j)
    ensures SameLetters(Trim(text), name)
  {
    hide SameLetters, IsLowerName, IsBlankText;
    SpelledIsInk(text[i..j], name);
    var rest := text[i..];
    assert text[i..j][0] == text[i] && text[i..j][j - i - 1] == text[j - 1];
    TrimStartSkips(text, i);
    assert rest[j - i - 1] == text[j - 1] && rest[j - i..] == text[j..] && rest[..j - i] == text[i..j];
    TrimEndSkips(rest, j - i);
  }

  lemma SpelledIsInk(s: string, name: string)
    requires IsLowerName(name) && SameLetters(s, name)
    ensures s != "" && !IsWhitespace(s[0]) && !IsWhitespace(s[|s| - 1])
  {}

  lemma ForProviderIff(provider: string)
    ensures ForProvider(provider) == Some(ClaudeStreamJson) <==> IsSpelled(provider, "claude")
    ensures ForProvider(provider) == Some(CodexAppServer) <==> IsSpelled(provider, "codex")
    ensures ForProvider(provider) == Some(AntigravityStreamJson) <==> IsSpelled(provider, "antigravity")
    ensures ForProvider(provider) == Some(OpenCodeAcp) <==> IsSpelled(provider, "opencode")
    ensures ForProvider(provider) == Some(PiRpc) <==> IsSpelled(provider, "pi")
    ensures ForProvider(provider).Some? <==> SpeaksNative(provider)
  {
    hide IsSpelled, LowerAscii, Trim;
    TrimmedIsSpelled(provider, "claude");
    TrimmedIsSpelled(provider, "codex");
    TrimmedIsSpelled(provider, "antigravity");
    TrimmedIsSpelled(provider, "opencode");
    TrimmedIsSpelled(provider, "pi");
  }

  // ----- what a route says -----

  ghost predicate IsOrdinary(mode: InputMode, policy: QueuePolicy) {
    !mode.ApprovalAction? && !policy.MailboxOnly?
  }

  /** A queued message without a live surface goes to the native provider. */
  ghost predicate GoesNative(info: TargetInfo, surface: Surface, mode: InputMode, policy: QueuePolicy) {
    mode.Message? && policy.QueueIfBusy? && !surface.liveSurface && SpeaksNative(info.provider)
  }

  /** The provider is known not to take input, and no headless run could. */
  ghost predicate IsHeldBack(info: TargetInfo, surface: Surface, policy: QueuePolicy) {
    && surface.knownNotReady
    && info.status != "off" && info.status != "error" && info.status != "headless"
    && !(policy.LiveOnly? && info.provider == "claude" && info.status == "idle")
  }

  /** Nothing but the status decides. */
  ghost predicate StatusDecides(info: TargetInfo, surface: Surface, mode: InputMode, policy: QueuePolicy) {
    && IsOrdinary(mode, policy) && !GoesNative(info, surface, mode, policy)
    && !IsHeldBack(info, surface, policy) && !surface.leased
  }

  ghost predicate IsStopped(info: TargetInfo) {
    info.status == "off" || info.status == "error"
  }

  ghost predicate GoesLive(info: TargetInfo, surface: Surface, mode: InputMode, policy: QueuePolicy, hasAction: bool) {
    || (mode.ApprovalAction? && hasAction && info.status == "action_required")
    || (StatusDecides(info, surface, mode, policy) && info.status == "idle")
  }

  ghost predicate GoesHeadless(info: TargetInfo, surface: Surface, mode: InputMode, policy: QueuePolicy) {
    || GoesNative(info, surface, mode, policy)
    || (StatusDecides(info, surface, mode, policy) && IsStopped(info) && mode.Message? && policy.QueueIfBusy?)
  }

  /** Why a target is refused; everything else is "not_input_ready". */
  ghost predicate IsRefusedFor(failure: string, info: TargetInfo, surface: Surface, mode: InputMode, policy: QueuePolicy) {
    match failure
    case "mailbox_only" => policy.MailboxOnly? && !mode.ApprovalAction?
    case "provider_input_not_ready" =>
      IsOrdinary(mode, policy) && policy.QueueIfBusy? && !GoesNative(info, surface, mode, policy) && IsHeldBack(info, surface, policy)
    case "conversation_leased" =>
      && IsOrdinary(mode, policy) && !GoesNative(info, surface, mode, policy) && !IsHeldBack(info, surface, policy)
      && (surface.leased || info.status == "headless")
    case "target_processing" =>
      StatusDecides(info, surface, mode, policy) && policy.QueueIfBusy? && info.status == "processing"
    case "target_action_required" =>
      StatusDecides(info, surface, mode, policy) && policy.QueueIfBusy? && mode.Message? && info.status == "action_required"
    case "target_not_live" =>
      StatusDecides(info, surface, mode, policy) && policy.LiveOnly? && IsStopped(info)
    case "queued_not_live" =>
      StatusDecides(info, surface, mode, policy) && policy.QueueIfBusy? && mode.Command? && IsStopped(info)
    case _ => false
  }

  /** The route in terms of status, mode, policy, action and surface. */
  ghost predicate IsRoute(info: TargetInfo, surface: Surface, mode: InputMode, policy: QueuePolicy, hasAction: bool, route: Route) {
    match route
    case Live => GoesLive(info, surface, mode, policy, hasAction)
    case Headless => GoesHeadless(info, surface, mode, policy)
    case Reject(failure) =>
      && !GoesLive(info, surface, mode, policy, hasAction) && !GoesHeadless(info, surface, mode, policy)
      && (IsRefusedFor(failure, info, surface, mode, policy)
          || (failure == "not_input_ready" && forall other :: !IsRefusedFor(other, info, surface, mode, policy)))
    case Unreachable => false
  }

  lemma DeliveringRouteIs(info: TargetInfo, surface: Surface, mode: InputMode, policy: QueuePolicy, hasAction: bool)
    ensures var route := ChooseRoute(info, surface, mode, policy, hasAction);
            && !route.Unreachable?
            && (route.Live? <==> GoesLive(info, surface, mode, policy, hasAction))
            && (route.Headless? <==> GoesHeadless(info, surface, mode, policy))
    ensures !DecideDeliveryRoute(info.status, mode, policy, hasAction).Unreachable?
  {
    ForProviderIff(info.provider);
    hide ForProvider, SpeaksNative;
  }

  lemma RefusalIs(info: TargetInfo, surface: Surface, mode: InputMode, policy: QueuePolicy, hasAction: bool)
    ensures var route := ChooseRoute(info, surface, mode, policy, hasAction);
            route.Reject? ==>
              || IsRefusedFor(route.failure, info, surface, mode, policy)
              || (route.failure == "not_input_ready" && forall other :: !IsRefusedFor(other, info, surface, mode, policy))
  {
    ForProviderIff(info.provider);
    hide ForProvider, SpeaksNative;
  }

  /** No `unreachable!` arm is hit, and the route is the one that status, mode, policy,
      action and surface call for. */
  lemma RouteIsSound(info: TargetInfo, surface: Surface, mode: InputMode, policy: QueuePolicy, hasAction: bool)
    ensures var route := ChooseRoute(info, surface, mode, policy, hasAction);
            !route.Unreachable? && IsRoute(info, surface, mode, policy, hasAction, route)
    ensures !DecideDeliveryRoute(info.status, mode, policy, hasAction).Unreachable?
  {
    hide ChooseRoute, DecideDeliveryRoute, GoesLive, GoesHeadless, IsRefusedFor;
    DeliveringRouteIs(info, surface, mode, policy, hasAction);
    RefusalIs(info, surface, mode, policy, hasAction);
  }

  /** And no other route is. */
  lemma RouteIsUnique(info: TargetInfo, surface: Surface, mode: InputMode, policy: QueuePolicy, hasAction: bool,
                      one: Route, other: Route)
    requires IsRoute(info, surface, mode, policy, hasAction, one) && IsRoute(info, surface, mode, policy, hasAction, other)
    ensures one == other
  {
    hide SpeaksNative;
  }

  /** The guard of the native arm. */
  predicate TakesNativeArm(info: TargetInfo, mode: InputMode) {
    mode.Message? && info.provider != "codex" && ForProvider(info.provider).Some?
  }

  lemma CapitalisedCodexTakesNativeArm(uuid: string)
    ensures TakesNativeArm(TargetInfo(uuid, "Codex", "off", 0), Message)
    ensures ForProvider("Codex") == Some(CodexAppServer)
  {
    assert TrimStart("Codex") == "Codex" && TrimEnd("Codex") == "Codex";
    assert LowerAscii("Codex") == "codex" by {
      assert "Codex"[1..] == "odex" && "odex"[1..] == "dex" && "dex"[1..] == "ex" && "ex"[1..] == "x" && "x"[1..] == "";
      assert LowerAscii("x") == "x" && LowerAscii("ex") == "ex" && LowerAscii("dex") == "dex";
      assert LowerAscii("odex") == "odex";
    }
  }
}
