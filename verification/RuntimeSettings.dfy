/**
 runtime-settings.ts RuntimeSettingsService: an update changes the stored row, the
 configuration in memory and the alert manager's file together or not at all, one
 update after the other; a reload of an older configuration never reports over a
 newer one.
 */
module RuntimeSettings {
  import opened Wrappers

  type Other = nat  // the settings that no file and no check depends on

  datatype Settings = Settings(
    callerId: Option<string>,
    repeatInterval: string,
    webhook: bool,
    slack: bool,
    telegram: bool,
    other: Other
  )

  /** What the environment fixes. */
  datatype Environment = Environment(
    filePath: bool,
    webhookUrl: Option<string>,
    slackUrl: Option<string>,
    slackChannel: Option<string>,
    telegramToken: Option<string>,
    telegramChat: Option<string>
  )

  datatype Config = Config(
    env: Environment,
    callerId: Option<string>,
    repeatInterval: string,
    webhookEnabled: bool,
    slackEnabled: bool,
    telegramEnabled: bool,
    other: Other
  )

  predicate HasWebhook(env: Environment) {
    env.webhookUrl.Some?
  }

  predicate HasSlack(env: Environment) {
    env.slackUrl.Some? && env.slackChannel.Some?
  }

  predicate HasTelegram(env: Environment) {
    env.telegramToken.Some? && env.telegramChat.Some?
  }

  /** applyToConfig: an empty caller id is none, and a channel is on only when it is configured. */
  function ApplyTo(config: Config, value: Settings): Config {
    Config(config.env,
           if value.callerId == Some("") then None else value.callerId,
           value.repeatInterval,
           value.webhook && HasWebhook(config.env),
           value.slack && HasSlack(config.env),
           value.telegram && HasTelegram(config.env),
           value.other)
  }

  datatype Receiver = Webhook(url: string) | Slack(url: string, channel: string) | Telegram(token: string, chat: string)

  /** The alert manager's file: what renderAlertmanager wrote, or what an interrupted write left. */
  datatype File = Rendered(repeatInterval: string, receivers: seq<Receiver>) | Damaged(trace: nat)

  function Render(config: Config): File {
    Rendered(config.repeatInterval,
             (if config.webhookEnabled && HasWebhook(config.env) then [Webhook(config.env.webhookUrl.value)] else [])
             + (if config.slackEnabled && HasSlack(config.env)
                then [Slack(config.env.slackUrl.value, config.env.slackChannel.value)] else [])
             + (if config.telegramEnabled && HasTelegram(config.env)
                then [Telegram(config.env.telegramToken.value, config.env.telegramChat.value)] else []))
  }

  /** The configuration a value stands for: an empty caller id is none, and a channel is on when asked for and configured. */
  lemma ApplyMeans(config: Config, value: Settings)
    ensures var c := ApplyTo(config, value);
            && c.env == config.env && c.repeatInterval == value.repeatInterval && c.other == value.other
            && (c.callerId.None? <==> value.callerId.None? || value.callerId.value == "")
            && (c.callerId.Some? ==> c.callerId == value.callerId)
            && (c.webhookEnabled <==> value.webhook && config.env.webhookUrl.Some?)
            && (c.slackEnabled <==> value.slack && config.env.slackUrl.Some? && config.env.slackChannel.Some?)
            && (c.telegramEnabled <==> value.telegram && config.env.telegramToken.Some? && config.env.telegramChat.Some?)
  {
  }

  /** The file lists each channel that is on once, with its own addresses, webhook before Slack before Telegram. */
  lemma RenderMeans(config: Config)
    ensures Render(config).Rendered? && Render(config).repeatInterval == config.repeatInterval
    ensures var rs := Render(config).receivers; var env := config.env;
            && (forall r :: r in rs <==>
                  || (config.webhookEnabled && env.webhookUrl.Some? && r == Webhook(env.webhookUrl.value))
                  || (config.slackEnabled && env.slackUrl.Some? && env.slackChannel.Some?
                      && r == Slack(env.slackUrl.value, env.slackChannel.value))
                  || (config.telegramEnabled && env.telegramToken.Some? && env.telegramChat.Some?
                      && r == Telegram(env.telegramToken.value, env.telegramChat.value)))
            && (forall i, j | 0 <= i < j < |rs| :: !rs[i].Telegram? && !rs[j].Webhook? && (rs[i].Slack? ==> !rs[j].Slack?))
  {
  }

  datatype ApplyStatus = NotConfigured | Pending | Applied | Failed

  /** A reload loop still running: the configuration it is for and the attempts it has behind it. */
  datatype Reload = Reload(generation: nat, attempts: nat)

  datatype State = State(
    row: Option<Settings>,
    config: Config,
    file: File,
    generation: nat,
    status: ApplyStatus,
    reporter: nat,            // the generation that set the status
    reloads: seq<Reload>
  )

  /** The step of an update that fails, if any; a failed publish leaves some content behind. */
  datatype Fault =
    | NoFault
    | InvalidInput
    | StageFails
    | ConnectFails
    | InsertFails
    | PublishFails(left: File)
    | CommitFails

  /** An update with everything that will happen to it; the rollback's own write may fail too. */
  datatype Request = Request(value: Settings, fault: Fault, rollbackWrites: bool, rollbackLeft: File)

  predicate ChannelsAvailable(env: Environment, value: Settings) {
    (value.webhook ==> HasWebhook(env)) && (value.slack ==> HasSlack(env)) && (value.telegram ==> HasTelegram(env))
  }

  const MAX_ATTEMPTS := 10

  /** scheduleAlertmanagerReload: earlier loops are superseded. */
  function ScheduleReload(s: State): State {
    var g := s.generation + 1;
    if s.config.env.filePath
    then s.(generation := g, status := Pending, reporter := g, reloads := s.reloads + [Reload(g, 0)])
    else s.(generation := g, status := NotConfigured, reporter := g)
  }

  /** writeAlertmanagerConfig on the way back. */
  function RestoreFile(s: State, request: Request): State {
    if !s.config.env.filePath then s
    else if request.rollbackWrites then s.(file := Render(s.config))
    else s.(file := request.rollbackLeft)
  }


  /** performUpdate */
  function Update(s: State, request: Request): State {
    if request.fault.InvalidInput? || !ChannelsAvailable(s.config.env, request.value) then s
    else
      var candidate := ApplyTo(s.config, request.value);
      match request.fault
      case PublishFails(left) =>
        if s.config.env.filePath then RestoreFile(s.(file := left), request) else Committed(s, request.value)
      case CommitFails => RestoreFile(if s.config.env.filePath then s.(file := Render(candidate)) else s, request)
      case NoFault => Committed(s, request.value)
      case StageFails => if s.config.env.filePath then s else Committed(s, request.value)
      case _ => s
  }

  function Committed(s: State, value: Settings): State {
    var candidate := ApplyTo(s.config, value);
    ScheduleReload(s.(row := Some(value), config := candidate,
                      file := if s.config.env.filePath then Render(candidate) else s.file))
  }

  /** Without a file there is nothing to stage or publish, so those faults cannot occur. */
  predicate WentThrough(s: State, request: Request) {
    && !request.fault.InvalidInput? && ChannelsAvailable(s.config.env, request.value)
    && (request.fault.NoFault? || (!s.config.env.filePath && (request.fault.StageFails? || request.fault.PublishFails?)))
  }

  /** The configuration a stored row describes over the base. */
  function InForce(base: Config, row: Option<Settings>): Config {
    match row
    case None => base
    case Some(value) => ApplyTo(base, value)
  }

  /** Row, configuration and file describe one value over the base configuration. */
  ghost predicate Agree(base: Config, s: State) {
    && s.config == InForce(base, s.row)
    && (s.config.env.filePath ==> s.file == Render(s.config))
  }

  lemma LastValueWins(base: Config, earlier: Settings, later: Settings)
    ensures ApplyTo(ApplyTo(base, earlier), later) == ApplyTo(base, later)
  {
  }

  /** The row that must be visible after an update. */
  function ExpectedRow(s: State, request: Request): Option<Settings> {
    if WentThrough(s, request) then Some(request.value) else s.row
  }

  /**
   All or nothing: whatever step fails, afterwards row, configuration and file
   describe the new value if the update went through and the previous one if not.
   */
  lemma UpdateIsAllOrNothing(base: Config, s: State, request: Request)
    requires Agree(base, s) && request.rollbackWrites
    ensures Agree(base, Update(s, request))
    ensures Update(s, request).row == ExpectedRow(s, request)
    ensures !WentThrough(s, request) ==> Update(s, request) == s
  {
    if s.row.Some? {
      LastValueWins(base, s.row.value, request.value);
    }
    assert s.config.env == base.env;
  }

  /**
   Exactly when a failed update can leave the file behind: it had touched the file and
   the rollback's write failed.
  */
  predicate RollbackLost(s: State, request: Request) {
    && s.config.env.filePath && !request.rollbackWrites && !request.fault.InvalidInput?
    && ChannelsAvailable(s.config.env, request.value)
    && (request.fault.PublishFails? || request.fault.CommitFails?)
    && request.rollbackLeft != Render(s.config)
  }

  lemma AgreementLostIff(base: Config, s: State, request: Request)
    requires Agree(base, s)
    ensures Agree(base, Update(s, request)) <==> !RollbackLost(s, request)
  {
    if s.row.Some? {
      LastValueWins(base, s.row.value, request.value);
    }
    assert s.config.env == base.env;
  }

  /** Row and configuration describe one value, whatever became of the file. */
  ghost predicate ConfigAgrees(base: Config, s: State) {
    s.config == InForce(base, s.row)
  }

  /** The update got as far as changing the file. */
  predicate TouchesFile(s: State, request: Request) {
    && s.config.env.filePath && !request.fault.InvalidInput? && ChannelsAvailable(s.config.env, request.value)
    && (request.fault.NoFault? || request.fault.PublishFails? || request.fault.CommitFails?)
  }

  /**
   From any state, a lost rollback included: row and configuration never part, and the
   file agrees again exactly after an update that wrote it whole, forward or back; an
   update that does not reach the file leaves it as it was.
   */
  lemma AgreementReturnsIff(base: Config, s: State, request: Request)
    requires ConfigAgrees(base, s)
    ensures ConfigAgrees(base, Update(s, request))
    ensures s.config.env.filePath ==>
              (Agree(base, Update(s, request)) <==>
               if !TouchesFile(s, request) then Agree(base, s)
               else WentThrough(s, request) || request.rollbackWrites || request.rollbackLeft == Render(s.config))
    ensures !s.config.env.filePath ==> Agree(base, Update(s, request))
  {
    if s.row.Some? {
      LastValueWins(base, s.row.value, request.value);
    }
    assert s.config.env == base.env;
  }

  // ---------------------------------------------------------------- the queue of updates

  function UpdateAll(s: State, requests: seq<Request>): State
    decreases |requests|
  {
    if requests == [] then s else UpdateAll(Update(s, requests[0]), requests[1..])
  }

  function LastThrough(row: Option<Settings>, env: Environment, requests: seq<Request>): Option<Settings> {
    if requests == [] then row
    else
      var last := requests[|requests| - 1];
      if !last.fault.InvalidInput? && ChannelsAvailable(env, last.value)
         && (last.fault.NoFault? || (!env.filePath && (last.fault.StageFails? || last.fault.PublishFails?)))
      then Some(last.value) else LastThrough(row, env, requests[..|requests| - 1])
  }

  lemma {:induction false} UpdateAllSplits(s: State, requests: seq<Request>)
    requires requests != []
    ensures UpdateAll(s, requests) == Update(UpdateAll(s, requests[..|requests| - 1]), requests[|requests| - 1])
    decreases |requests|
  {
    hide Update;
    if |requests| == 1 {
      assert requests[1..] == [] && requests[..0] == [];
      assert UpdateAll(Update(s, requests[0]), []) == Update(s, requests[0]);
    } else {
      UpdateAllSplits(Update(s, requests[0]), requests[1..]);
      assert requests[..|requests| - 1][1..] == requests[1..][..|requests[1..]| - 1];
    }
  }

  /**
   The last update of the queue that got as far as the file left it whole: with its own
   value if it went through, with the one in force before it if it was rolled back.
   Without one, the file is as it was at the start.
   */
  predicate LastWriteWasWhole(base: Config, s: State, requests: seq<Request>) {
    if requests == [] then s.file == Render(s.config)
    else
      var (init, last) := (requests[..|requests| - 1], requests[|requests| - 1]);
      if TouchesFile(s, last) then
        || WentThrough(s, last) || last.rollbackWrites
        || last.rollbackLeft == Render(InForce(base, LastThrough(s.row, base.env, init)))
      else LastWriteWasWhole(base, s, init)
  }

  /** No update changes what the environment fixes, which is all that decides whether it goes through. */
  lemma EnvironmentDecides(s: State, t: State, request: Request)
    requires s.config.env == t.config.env
    ensures TouchesFile(s, request) == TouchesFile(t, request) && WentThrough(s, request) == WentThrough(t, request)
  {
  }

  lemma UpdateKeepsRow(s: State, request: Request)
    ensures Update(s, request).row == ExpectedRow(s, request)
  {
  }

  /**
   After any queue of updates, whatever fails in them: the last one that went through
   is in force in row and configuration, and the file agrees with them exactly when
   the last update that touched it left it whole.
   */
  lemma {:induction false} QueueIsSerial(base: Config, s: State, requests: seq<Request>)
    requires ConfigAgrees(base, s)
    ensures ConfigAgrees(base, UpdateAll(s, requests))
    ensures UpdateAll(s, requests).row == LastThrough(s.row, base.env, requests)
    ensures base.env.filePath ==> (Agree(base, UpdateAll(s, requests)) <==> LastWriteWasWhole(base, s, requests))
    ensures !base.env.filePath ==> Agree(base, UpdateAll(s, requests))
    decreases |requests|
  {
    assert s.config.env == base.env;
    if requests != [] {
      var (init, last) := (requests[..|requests| - 1], requests[|requests| - 1]);
      var before := UpdateAll(s, init);
      QueueIsSerial(base, s, init);
      UpdateAllSplits(s, requests);
      assert before.config.env == base.env;
      EnvironmentDecides(s, before, last);
      AgreementReturnsIff(base, before, last);
      UpdateKeepsRow(before, last);
      hide Update, Render, UpdateAll, TouchesFile;
    }
  }

  /** In particular nothing is lost while every rollback can write. */
  lemma {:induction false} WritingRollbacksAgree(base: Config, s: State, requests: seq<Request>)
    requires Agree(base, s) && forall i | 0 <= i < |requests| :: requests[i].rollbackWrites
    ensures Agree(base, UpdateAll(s, requests))
    decreases |requests|
  {
    hide Update, Render, Agree;
    if requests != [] {
      UpdateIsAllOrNothing(base, s, requests[0]);
      WritingRollbacksAgree(base, Update(s, requests[0]), requests[1..]);
    }
  }

  // ---------------------------------------------------------------- reloads

  /** The answer of one reload attempt of one loop. */
  function ReloadAnswered(s: State, i: nat, ok: bool): State {
    if i >= |s.reloads| then s
    else
      var loop := s.reloads[i];
      var others := s.reloads[..i] + s.reloads[i + 1..];
      if loop.generation != s.generation then s.(reloads := others)
      else if ok then s.(status := Applied, reporter := loop.generation, reloads := others)
      else if loop.attempts + 1 < MAX_ATTEMPTS then s.(reloads := s.reloads[i := loop.(attempts := loop.attempts + 1)])
      else s.(status := Failed, reporter := loop.generation, reloads := others)
  }

  datatype Event = Updated(request: Request) | Answered(i: nat, ok: bool)

  function Apply(s: State, event: Event): State {
    match event
    case Updated(request) => Update(s, request)
    case Answered(i, ok) => ReloadAnswered(s, i, ok)
  }

  function Run(s: State, events: seq<Event>): State
    decreases |events|
  {
    if events == [] then s else Run(Apply(s, events[0]), events[1..])
  }

  /** The status speaks for the newest configuration; at most one loop works for it, within its attempts. */
  ghost predicate ReloadsOk(s: State) {
    && s.reporter == s.generation
    && (forall i | 0 <= i < |s.reloads| :: s.reloads[i].generation <= s.generation && s.reloads[i].attempts < MAX_ATTEMPTS)
    && (forall i, j | 0 <= i < j < |s.reloads| :: s.reloads[i].generation < s.reloads[j].generation)
    && (s.status == Applied || s.status == Failed ==>
          forall i | 0 <= i < |s.reloads| :: s.reloads[i].generation < s.generation)
  }

  lemma ScheduleKeepsReloads(s: State)
    requires ReloadsOk(s)
    ensures ReloadsOk(ScheduleReload(s))
  {
  }

  lemma UpdateKeepsReloads(s: State, request: Request)
    requires ReloadsOk(s)
    ensures ReloadsOk(Update(s, request))
  {
    hide Render;
    ScheduleKeepsReloads(s.(row := Some(request.value), config := ApplyTo(s.config, request.value),
                            file := if s.config.env.filePath then Render(ApplyTo(s.config, request.value)) else s.file));
  }

  lemma AnswerKeepsReloads(s: State, i: nat, ok: bool)
    requires ReloadsOk(s)
    ensures ReloadsOk(ReloadAnswered(s, i, ok))
  {
    if i < |s.reloads| {
      WithoutOneIsOk(s, i, s.status, s.reporter);
      if s.reloads[i].generation == s.generation {
        WithoutOneIsOk(s, i, if ok then Applied else Failed, s.reloads[i].generation);
      }
    }
  }

  /** A loop that is over leaves the others in order; if it was the current one, none of them is. */
  lemma WithoutOneIsOk(s: State, i: nat, status: ApplyStatus, reporter: nat)
    requires ReloadsOk(s) && i < |s.reloads| && reporter == s.generation
    requires status == s.status || s.reloads[i].generation == s.generation
    ensures ReloadsOk(s.(status := status, reporter := reporter, reloads := s.reloads[..i] + s.reloads[i + 1..]))
  {
    var others := s.reloads[..i] + s.reloads[i + 1..];
    assert forall k | 0 <= k < |others| :: others[k] == if k < i then s.reloads[k] else s.reloads[k + 1];
  }

  /** Whatever updates and late answers interleave, the reported status is never that of a superseded configuration. */
  lemma {:induction false} StatusIsCurrent(s: State, events: seq<Event>)
    requires ReloadsOk(s)
    ensures ReloadsOk(Run(s, events))
    decreases |events|
  {
    hide ReloadsOk, Update, ReloadAnswered;
    if events != [] {
      match events[0] {
        case Updated(request) => UpdateKeepsReloads(s, request);
        case Answered(i, ok) => AnswerKeepsReloads(s, i, ok);
      }
      StatusIsCurrent(Apply(s, events[0]), events[1..]);
    }
  }

  /** What the newest configuration's reload was answered since it was put in force; answers to older ones do not count. */
  ghost function Heard(s: State, events: seq<Event>): seq<bool>
    decreases |events|
  {
    if events == [] then []
    else
      var (init, last) := (events[..|events| - 1], events[|events| - 1]);
      var before := Run(s, init);
      match last
      case Updated(request) => if WentThrough(before, request) then [] else Heard(s, init)
      case Answered(i, ok) =>
        if i < |before.reloads| && before.reloads[i].generation == before.generation then Heard(s, init) + [ok] else Heard(s, init)
  }

  /** Applied after a success, failed after ten failures, pending until then. */
  predicate Reported(status: ApplyStatus, filePath: bool, heard: seq<bool>) {
    && (status == NotConfigured <==> !filePath)
    && (status == Applied <==> filePath && true in heard)
    && (status == Failed <==> filePath && true !in heard && |heard| == 10)
  }

  /** The newest configuration's loop goes on, with its attempts counted, exactly while the status is pending. */
  ghost predicate Fits(s: State, heard: seq<bool>) {
    && ReloadsOk(s) && Reported(s.status, s.config.env.filePath, heard) && |heard| <= 10
    && (s.status == Pending ==>
          s.reloads != [] && s.reloads[|s.reloads| - 1] == Reload(s.generation, |heard|))
    && (s.status != Pending ==> forall i | 0 <= i < |s.reloads| :: s.reloads[i].generation < s.generation)
  }

  lemma ScheduledFits(s: State)
    requires ReloadsOk(s)
    ensures Fits(ScheduleReload(s), [])
  {
    ScheduleKeepsReloads(s);
  }

  lemma UpdateFits(s: State, request: Request, heard: seq<bool>)
    requires Fits(s, heard)
    ensures Fits(Update(s, request), if WentThrough(s, request) then [] else heard)
  {
    hide Render, ScheduleReload, ReloadsOk, Reported;
    var candidate := ApplyTo(s.config, request.value);
    var committed := s.(row := Some(request.value), config := candidate,
                        file := if s.config.env.filePath then Render(candidate) else s.file);
    assert ReloadsOk(committed) by {
      SameReloads(s, committed);
    }
    ScheduledFits(committed);
    SameReloads(s, Update(s, request));
  }

  lemma SameReloads(s: State, t: State)
    ensures ReloadsOk(s) && t == s.(row := t.row, config := t.config, file := t.file) ==> ReloadsOk(t)
  {
  }

  lemma AnswerFits(s: State, i: nat, ok: bool, heard: seq<bool>)
    requires Fits(s, heard)
    ensures Fits(ReloadAnswered(s, i, ok),
                 if i < |s.reloads| && s.reloads[i].generation == s.generation then heard + [ok] else heard)
  {
    AnswerKeepsReloads(s, i, ok);
  }

  lemma {:induction false} RunEnds(s: State, events: seq<Event>)
    requires events != []
    ensures Run(s, events) == Apply(Run(s, events[..|events| - 1]), events[|events| - 1])
    decreases |events|
  {
    hide Apply;
    if |events| == 1 {
      assert events[1..] == [] && events[..0] == [];
    } else {
      RunEnds(Apply(s, events[0]), events[1..]);
      assert events[1..][..|events| - 2] == events[..|events| - 1][1..];
    }
  }

  /**
   From any scheduled reload on, whatever updates and late answers interleave: the status is what the newest
   configuration's own answers say, and its loop goes on until a success or the tenth failure.
   */
  lemma {:induction false} StatusIsHeard(s: State, events: seq<Event>)
    requires Fits(s, [])
    ensures Fits(Run(s, events), Heard(s, events))
    decreases |events|
  {
    hide Fits, Update, ReloadAnswered, Run, WentThrough;
    if events == [] {
      NoEvents(s);
    } else {
      var (init, last) := (events[..|events| - 1], events[|events| - 1]);
      StatusIsHeard(s, init);
      RunEnds(s, events);
      match last {
        case Updated(request) => UpdateFits(Run(s, init), request, Heard(s, init));
        case Answered(i, ok) => AnswerFits(Run(s, init), i, ok, Heard(s, init));
      }
    }
  }

  lemma NoEvents(s: State)
    ensures Run(s, []) == s
  {
  }

  // ---------------------------------------------------------------- the service

  class RuntimeSettingsService {
    ghost const base: Config
    var row: Option<Settings>      // in the database
    var config: Config
    var file: File                 // on disk
    var generation: nat
    var status: ApplyStatus
    var reporter: nat
    var reloads: seq<Reload>
    var queue: seq<Request>        // updates whose turn has not come

    ghost function View(): State
      reads this
    {
      State(row, config, file, generation, status, reporter, reloads)
    }

    constructor (config: Config, row: Option<Settings>, file: File)
      ensures View() == State(row, config, file, 0, if config.env.filePath then Pending else NotConfigured, 0, [])
      ensures base == config && queue == [] && ReloadsOk(View())
    {
      this.base := config;
      this.row, this.config, this.file := row, config, file;
      generation, reporter, reloads, queue := 0, 0, [], [];
      status := if config.env.filePath then Pending else NotConfigured;
    }

    /**
     Start-up: the stored row is applied over the environment and the file is written.
     A write that fails leaves some content and ends the start-up before any reload.
     */
    method Initialize(writeLeaves: Option<File>) returns (ok: bool)
      requires config == base && ReloadsOk(View())
      modifies this
      ensures ok <==> !(base.env.filePath && writeLeaves.Some?)
      ensures ConfigAgrees(base, View()) && row == old(row) && ReloadsOk(View()) && queue == old(queue)
      ensures ok ==> Agree(base, View()) && generation == old(generation) + 1 && Fits(View(), [])
      ensures !ok ==> (Agree(base, View()) <==> writeLeaves == Some(Render(config)))
      ensures !ok ==> View() == old(View()).(config := config, file := writeLeaves.value)
    {
      if row.Some? {
        config := ApplyTo(config, row.value);
      }
      if config.env.filePath {
        if writeLeaves.Some? {
          file := writeLeaves.value;
          return false;
        }
        file := Render(config);
      }
      ScheduleReloadNow();
      return true;
    }

    method ScheduleReloadNow()
      modifies this
      ensures View() == ScheduleReload(old(View())) && queue == old(queue)
      ensures ReloadsOk(old(View())) ==> Fits(View(), [])
    {
      if ReloadsOk(View()) {
        ScheduledFits(View());
      }
      generation := generation + 1;
      reporter := generation;
      if !config.env.filePath {
        status := NotConfigured;
        return;
      }
      status := Pending;
      reloads := reloads + [Reload(generation, 0)];
    }

    method RestoreFileNow(request: Request)
      modifies this
      ensures View() == RestoreFile(old(View()), request) && queue == old(queue)
    {
      if config.env.filePath {
        file := if request.rollbackWrites then Render(config) else request.rollbackLeft;
      }
    }

    method PerformUpdate(request: Request) returns (ok: bool)
      modifies this
      ensures View() == Update(old(View()), request) && queue == old(queue)
      ensures ok == WentThrough(old(View()), request)
    {
      if request.fault.InvalidInput? || !ChannelsAvailable(config.env, request.value) {
        return false;
      }
      var candidate := ApplyTo(config, request.value);
      var staged := config.env.filePath;
      if staged && request.fault.StageFails? {
        return false;
      }
      if request.fault.ConnectFails? || request.fault.InsertFails? {
        return false;
      }
      if staged && request.fault.PublishFails? {
        file := request.fault.left;
        RestoreFileNow(request);
        return false;
      }
      if staged {
        file := Render(candidate);
      }
      if request.fault.CommitFails? {
        RestoreFileNow(request);
        return false;
      }
      row := Some(request.value);
      config := candidate;
      ScheduleReloadNow();
      return true;
    }

    /** update(): queued behind every earlier update. */
    method Submit(request: Request)
      modifies this`queue
      ensures queue == old(queue) + [request]
    {
      queue := queue + [request];
    }

    /** The queue's chain runs on whether an update succeeded or failed. */
    method RunQueue()
      requires ConfigAgrees(base, View())
      modifies this
      ensures View() == UpdateAll(old(View()), old(queue)) && queue == []
      ensures ConfigAgrees(base, View()) && row == LastThrough(old(row), base.env, old(queue))
      ensures Agree(base, View()) <==> !base.env.filePath || LastWriteWasWhole(base, old(View()), old(queue))
    {
      QueueIsSerial(base, View(), queue);
      ghost var first, all := View(), queue;
      assert all[0..] == all;
      ghost var done := 0;
      while queue != []
        invariant done <= |all| && queue == all[done..]
        invariant UpdateAll(View(), queue) == UpdateAll(first, all)
        decreases |queue|
      {
        var request := queue[0];
        queue := queue[1..];
        var _ := PerformUpdate(request);
        done := done + 1;
      }
    }
  }
}
