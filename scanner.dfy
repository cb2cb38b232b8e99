/**
 * The scanner Lambda (handlers/src/scanner.ts): it lists the Secrets
 * Manager secrets, and for every secret tagged `autodump:start-schedule`
 * computes the next dump time and asks Step Functions to start an
 * execution named after the secret, its database and that time.
 *
 * AWS calls, cron-parser, the local-time `Date` getters and the clock are
 * parameters gathered in `Env`; StartExecution requests are recorded in the
 * `sent` log of a `ScanRun`.
 */
module Scanner {
  import opened Wrappers
  import opened JsStrings
  import opened Decimal
  import opened HashHelper
  import opened CronDialect

  /** `AutoDumpAction`: the input of a Step Functions execution. */
  datatype Action = Action(resourceId: JsString, tagsHash: JsString, when: JsString)

  /** `AutoDumpResource`: a scheduled secret. */
  datatype Resource = Resource(id: JsString, tags: AutoDumpTags, tagsHash: JsString)

  function ActionWhen(a: Action): JsString {
    a.when
  }

  // ---------------------------------------------------------------------
  // cronAction, cronActions, nextAction

  /** The timezone a resource's schedule is read in: its tag, else UTC. */
  function ZoneOf(resource: Resource): JsString {
    resource.tags.timezone.GetOr(UTC)
  }

  /**
   * `cronAction(resource, cronExpression)`: an action at the next
   * occurrence, nothing when the expression is empty or has no next
   * occurrence, or the error `optionalCron` throws.
   */
  function CronAction(resource: Resource, cronExpression: JsString, now: int, nextFire: NextFire)
    : (r: Result<Option<Action>, CronError>)
    ensures cronExpression == [] ==> r == Ok(None)
    ensures ValidateCron(Some(cronExpression)).Err? ==> r == Err(ValidateCron(Some(cronExpression)).error)
    ensures ValidateCron(Some(cronExpression)) == Ok(Some(Normalize(cronExpression))) ==>
      match nextFire(Normalize(cronExpression), ZoneOf(resource), now + 60000)
      case ParseError => r == Err(Unparsable(Normalize(cronExpression)))
      case NoNext => r == Ok(None)
      case NextAt(iso) => r == Ok(Some(Action(resource.id, HashTagsV1(resource.tags), iso)))
  {
    match OptionalCron(Some(cronExpression), ZoneOf(resource), now, nextFire)
    case Err(e) => Err(e)
    case Ok(None) => Ok(None)
    case Ok(Some(schedule)) =>
      if schedule.next.Some? then
        Ok(Some(Action(resource.id, HashTagsV1(resource.tags), schedule.next.value)))
      else Ok(None)
  }

  /**
   * What `cronActions` collects: at most one action, present only when the
   * resource has a start schedule with a next occurrence.
   */
  function ScheduledActions(resource: Resource, now: int, nextFire: NextFire)
    : (r: Result<seq<Action>, CronError>)
    ensures r.Ok? ==> |r.value| <= 1
    ensures resource.tags.startSchedule.None? ==> r == Ok([])
    ensures r.Ok? && |r.value| == 1 ==>
      resource.tags.startSchedule.Some?
      && CronAction(resource, resource.tags.startSchedule.value, now, nextFire) == Ok(Some(r.value[0]))
    ensures r.Err? ==>
      resource.tags.startSchedule.Some?
      && CronAction(resource, resource.tags.startSchedule.value, now, nextFire).Err?
    ensures resource.tags.startSchedule.Some? ==>
      match CronAction(resource, resource.tags.startSchedule.value, now, nextFire)
      case Err(e) => r == Err(e)
      case Ok(None) => r == Ok([])
      case Ok(Some(a)) => r == Ok([a])
  {
    if resource.tags.startSchedule.None? then Ok([])
    else
      match CronAction(resource, resource.tags.startSchedule.value, now, nextFire)
      case Err(e) => Err(e)
      case Ok(None) => Ok([])
      case Ok(Some(start)) => Ok([start])
  }

  /** `cronActions(resource)`: pushes the start action, if any, onto an empty list. */
  method CronActions(resource: Resource, now: int, nextFire: NextFire)
    returns (r: Result<seq<Action>, CronError>)
    ensures r == ScheduledActions(resource, now, nextFire)
  {
    var actions: seq<Action> := [];
    if resource.tags.startSchedule.Some? {
      var start := CronAction(resource, resource.tags.startSchedule.value, now, nextFire);
      if start.Err? {
        return Err(start.error);
      }
      if start.value.Some? {
        actions := actions + [start.value.value];
        assert actions == [start.value.value];
      }
    }
    return Ok(actions);
  }

  /** What `nextAction` selects: the first action with the smallest `when`. */
  function EarliestAction(resource: Resource, now: int, nextFire: NextFire)
    : Result<Option<Action>, CronError>
  {
    match ScheduledActions(resource, now, nextFire)
    case Err(e) => Err(e)
    case Ok(actions) =>
      if actions == [] then Ok(None)
      else Ok(Some(actions[EarliestIndex(actions, ActionWhen)]))
  }

  /** `nextAction(resource)` */
  method NextAction(resource: Resource, now: int, nextFire: NextFire)
    returns (r: Result<Option<Action>, CronError>)
    ensures r == EarliestAction(resource, now, nextFire)
  {
    var actions := CronActions(resource, now, nextFire);
    if actions.Err? {
      return Err(actions.error);
    }
    var selected := SelectEarliest(actions.value, ActionWhen);
    return Ok(selected);
  }

  /**
   * With at most one action to choose from, `nextAction` returns that
   * action; it returns nothing exactly when there is none.
   */
  lemma EarliestIsTheOnlyAction(resource: Resource, now: int, nextFire: NextFire)
    ensures var r := EarliestAction(resource, now, nextFire);
      var all := ScheduledActions(resource, now, nextFire);
      (r.Err? <==> all.Err?)
      && (r == Ok(None) <==> all == Ok([]))
      && (forall a :: r == Ok(Some(a)) <==> all == Ok([a]))
  {
  }

  /**
   * Because `getTags` keeps only the last tag, a scanned secret with a start
   * schedule never carries a timezone: its schedule is always read in UTC.
   */
  lemma ScannedSchedulesUseUtc(tags: seq<Tag>, id: JsString, now: int, nextFire: NextFire)
    ensures var t := GetTags(Some(tags));
      t.startSchedule.Some? ==> ZoneOf(Resource(id, t, HashTagsV1(t))) == UTC
  {
    GetTagsLastTagOnly(Some(tags));
  }

  // ---------------------------------------------------------------------
  // formatTimestamp

  type Month = m: int | 1 <= m <= 12 witness 1
  type Day = d: int | 1 <= d <= 31 witness 1
  type Hour = h: int | 0 <= h <= 23
  type Minute = m: int | 0 <= m <= 59

  /** What the local-time getters of `new Date(timestamp)` return (`getMonth() + 1` as month). */
  datatype DateParts = DateParts(year: int, month: Month, day: Day, hours: Hour, minutes: Minute)

  /** `formatTimestamp`: `year-MM-DD-HH-mm`, the year unpadded. */
  function FormatTimestamp(d: DateParts): JsString {
    IntToString(d.year) + [DASH] + PadTwo(d.month) + [DASH] + PadTwo(d.day)
      + [DASH] + PadTwo(d.hours) + [DASH] + PadTwo(d.minutes)
  }

  /**
   * The rendering is the year followed by four dash-led two-digit fields
   * that read back as month, day, hour and minute.
   */
  lemma FormatTimestampFields(d: DateParts)
    ensures var r, n := FormatTimestamp(d), |IntToString(d.year)|;
      |r| == n + 12 && r[..n] == IntToString(d.year)
      && r[n] == DASH && r[n + 3] == DASH && r[n + 6] == DASH && r[n + 9] == DASH
      && AllDigits(r[n + 1..n + 3]) && DigitsValue(r[n + 1..n + 3]) == d.month
      && AllDigits(r[n + 4..n + 6]) && DigitsValue(r[n + 4..n + 6]) == d.day
      && AllDigits(r[n + 7..n + 9]) && DigitsValue(r[n + 7..n + 9]) == d.hours
      && AllDigits(r[n + 10..n + 12]) && DigitsValue(r[n + 10..n + 12]) == d.minutes
  {
    var y := IntToString(d.year);
    var n := |y|;
    PadTwoValue(d.month);
    PadTwoValue(d.day);
    PadTwoValue(d.hours);
    PadTwoValue(d.minutes);
    var r := FormatTimestamp(d);
    assert r == y + [DASH] + PadTwo(d.month) + [DASH] + PadTwo(d.day)
      + [DASH] + PadTwo(d.hours) + [DASH] + PadTwo(d.minutes);
    assert r[..n] == y;
    assert r[n + 1..n + 3] == PadTwo(d.month);
    assert r[n + 4..n + 6] == PadTwo(d.day);
    assert r[n + 7..n + 9] == PadTwo(d.hours);
    assert r[n + 10..n + 12] == PadTwo(d.minutes);
  }

  /** Different times get different timestamps. */
  lemma FormatTimestampInjective(a: DateParts, b: DateParts)
    requires FormatTimestamp(a) == FormatTimestamp(b)
    ensures a == b
  {
    FormatTimestampFields(a);
    FormatTimestampFields(b);
    var r := FormatTimestamp(a);
    var n := |IntToString(a.year)|;
    assert IntToString(a.year) == r[..n] == IntToString(b.year);
    IntToStringInjective(a.year, b.year);
  }

  // ---------------------------------------------------------------------
  // the execution name

  const NAME_PREFIX_LIMIT: nat := 60
  const JOB_NAME_LIMIT: nat := 80

  /**
   * The execution name: the secret name cut to 60 code units, the database
   * name and the timestamp joined by dashes, all cut to 80; empty when the
   * secret has no name or the secret no database name.
   */
  function JobName(name: Option<JsString>, databaseName: Option<JsString>, executionTime: JsString)
    : (r: JsString)
    ensures |r| <= 80
    ensures name.None? || databaseName.None? ==> r == []
    ensures name.Some? && databaseName.Some? ==>
      r <= Take(name.value, 60) + [DASH] + databaseName.value + [DASH] + executionTime
      && |r| == Min(|Take(name.value, 60) + [DASH] + databaseName.value + [DASH] + executionTime|, 80)
  {
    if name.Some? && databaseName.Some? then
      Take(Take(name.value, NAME_PREFIX_LIMIT) + [DASH] + databaseName.value + [DASH] + executionTime, JOB_NAME_LIMIT)
    else []
  }

  /**
   * The cut never reaches into the secret name: the first 60 code units of
   * the name always survive, and a name that fits whole is not cut at all.
   */
  lemma JobNameKeepsSecretName(name: JsString, databaseName: JsString, executionTime: JsString)
    ensures Take(name, 60) <= JobName(Some(name), Some(databaseName), executionTime)
    ensures var full := Take(name, 60) + [DASH] + databaseName + [DASH] + executionTime;
      |full| <= 80 ==> JobName(Some(name), Some(databaseName), executionTime) == full
  {
    var head := Take(name, 60);
    var full := head + [DASH] + databaseName + [DASH] + executionTime;
    var r := JobName(Some(name), Some(databaseName), executionTime);
    assert full[..|head|] == head;
    assert r[..|head|] == head;
  }

  // ---------------------------------------------------------------------
  // handler

  /**
   * The event: `StateMachine.Id` when a Step Functions execution invokes
   * the scanner, and `stateMachineArn` from the JSON `input` when the
   * EventBridge rule does. A missing object or an unparsable input reads as
   * an absent value.
   */
  datatype Event = Event(stateMachineId: Option<JsString>, inputArn: Option<JsString>)

  /** A `SecretListEntry` as far as the scanner reads it. */
  datatype Secret = Secret(arn: Option<JsString>, name: Option<JsString>, tags: Option<seq<Tag>>)

  /** ListSecrets: the call throws, or returns a possibly absent `SecretList`. */
  datatype ListOutcome = ListFailed | Listed(secretList: Option<seq<Secret>>)

  /** `getDatabaseName(arn)`: GetSecretValue throws, or the secret's `databasename`. */
  datatype SecretLookup = LookupFailed | Found(databaseName: Option<JsString>)

  datatype StartExecutionRequest = StartExecutionRequest(stateMachineArn: JsString, input: Action, name: JsString)

  /** The handler resolves to a boolean, or its promise rejects. */
  datatype HandlerOutcome = Returned(ok: bool) | Rejected

  /**
   * The outside world of one invocation: the clock and the oracles, each
   * read as a single value for the whole invocation.
   */
  datatype Env = Env(
    now: int,
    nextFire: NextFire,
    dateParts: JsString -> DateParts,
    lookup: JsString -> SecretLookup)

  /** An exception that escapes into the handler's catch-all. */
  datatype ScanError = BadSchedule(error: CronError) | SecretUnreadable

  /** The state machine to start: the EventBridge input wins over `StateMachine.Id`. */
  function ResolveArn(event: Event): (r: Option<JsString>)
    ensures event.inputArn.Some? ==> r == event.inputArn
    ensures event.inputArn.None? ==> r == event.stateMachineId
  {
    if event.inputArn.Some? then event.inputArn else event.stateMachineId
  }

  /** A tag that makes its secret eligible for scheduling. */
  predicate Eligible(secret: Secret, tag: Tag) {
    tag.key == Some(START_SCHEDULE) && secret.arn.Some?
  }

  /**
   * The StartExecution request for an action: its start time formatted, the
   * database name read from the secret (an exception when the secret cannot
   * be read), and the job name built from both.
   */
  function ActionRequest(stateMachineArn: JsString, action: Action, name: Option<JsString>, env: Env)
    : (r: Result<StartExecutionRequest, ScanError>)
    ensures r.Err? <==> env.lookup(action.resourceId).LookupFailed?
    ensures r.Ok? ==>
      r.value.stateMachineArn == stateMachineArn && r.value.input == action && |r.value.name| <= 80
      && r.value.name == JobName(name, env.lookup(action.resourceId).databaseName,
                                 FormatTimestamp(env.dateParts(action.when)))
  {
    var executionTime := FormatTimestamp(env.dateParts(action.when));
    match env.lookup(action.resourceId)
    case LookupFailed => Err(SecretUnreadable)
    case Found(databaseName) =>
      Ok(StartExecutionRequest(stateMachineArn, action, JobName(name, databaseName, executionTime)))
  }

  /**
   * What follows the choice of the next action for a secret: an exception
   * when the schedule could not be read, nothing when there is no next time
   * or the ARN is empty, otherwise the request for that action.
   */
  function RequestFor(stateMachineArn: JsString, secretArn: JsString, name: Option<JsString>, tagsHash: JsString,
                      nextTime: Result<Option<Action>, CronError>, env: Env)
    : (r: Result<Option<StartExecutionRequest>, ScanError>)
    ensures r.Err? <==>
      nextTime.Err? || (nextTime.value.Some? && secretArn != [] && env.lookup(secretArn).LookupFailed?)
    ensures r.Ok? && r.value.Some? ==>
      var req := r.value.value;
      nextTime.Ok? && nextTime.value.Some?
      && req.stateMachineArn == stateMachineArn && |req.name| <= 80
      && req.input == Action(secretArn, tagsHash, nextTime.value.value.when) && secretArn != []
    ensures nextTime.Ok? && nextTime.value.Some? && secretArn != [] && env.lookup(secretArn).Found? ==>
      r == Ok(Some(ActionRequest(stateMachineArn, Action(secretArn, tagsHash, nextTime.value.value.when),
                                 name, env).value))
  {
    match nextTime
    case Err(e) => Err(BadSchedule(e))
    case Ok(None) => Ok(None)
    case Ok(Some(next)) =>
      if secretArn == [] then Ok(None)
      else
        match ActionRequest(stateMachineArn, Action(secretArn, tagsHash, next.when), name, env)
        case Err(e) => Err(e)
        case Ok(req) => Ok(Some(req))
  }

  /**
   * The request one eligible tag leads to: none when there is no next time
   * or the ARN is empty, or an exception from the schedule or the secret
   * lookup. The resource is built from the whole tag list.
   */
  function Dispatch(stateMachineArn: JsString, secretArn: JsString, name: Option<JsString>,
                    tags: seq<Tag>, env: Env): (r: Result<Option<StartExecutionRequest>, ScanError>)
    ensures r.Ok? && r.value.Some? ==>
      var req := r.value.value;
      req.stateMachineArn == stateMachineArn && |req.name| <= 80
      && req.input.resourceId == secretArn && secretArn != []
      && req.input.tagsHash == HashTagsV1(GetTags(Some(tags)))
  {
    var resource := ScannedResource(secretArn, tags);
    RequestFor(stateMachineArn, secretArn, name, resource.tagsHash, EarliestAction(resource, env.now, env.nextFire), env)
  }

  /**
   * The converse: a schedule that cannot be read fails, no scheduled action
   * sends nothing, and a scheduled action of a secret with an ARN that can
   * be read sends the request for that action.
   */
  lemma DispatchSends(stateMachineArn: JsString, secretArn: JsString, name: Option<JsString>, tags: seq<Tag>, env: Env)
    ensures match ScheduledActions(ScannedResource(secretArn, tags), env.now, env.nextFire)
      case Err(_) => Dispatch(stateMachineArn, secretArn, name, tags, env).Err?
      case Ok(actions) =>
        (actions == [] ==> Dispatch(stateMachineArn, secretArn, name, tags, env) == Ok(None))
        && (|actions| == 1 && secretArn != [] && env.lookup(secretArn).Found? ==>
              Dispatch(stateMachineArn, secretArn, name, tags, env)
              == Ok(Some(StartExecutionRequest(stateMachineArn, actions[0],
                                               JobName(name, env.lookup(secretArn).databaseName,
                                                       FormatTimestamp(env.dateParts(actions[0].when)))))))
  {
  }

  /** The resource the tag loop pushes for a secret: its ARN, its tags read by `getTags`, their fingerprint. */
  function ScannedResource(secretArn: JsString, tags: seq<Tag>): Resource {
    var t := GetTags(Some(tags));
    Resource(secretArn, t, HashTagsV1(t))
  }

  /**
   * What an eligible tag of a secret leads to. `nextAction` and everything
   * after it read only the secret and its whole tag list, never the tag at
   * hand, and the clock and the secret's lookup are one value per
   * invocation, so every eligible tag of one secret leads to the same outcome.
   */
  function SecretOutcome(stateMachineArn: JsString, secret: Secret, tags: seq<Tag>, env: Env)
    : Result<Option<StartExecutionRequest>, ScanError>
  {
    if secret.arn.Some? then Dispatch(stateMachineArn, secret.arn.value, secret.name, tags, env) else Ok(None)
  }

  /**
   * What one tag of a secret leads to: nothing for a tag that does not make
   * the secret eligible, otherwise the secret's outcome.
   */
  function TagOutcome(secret: Secret, tag: Tag, outcome: Result<Option<StartExecutionRequest>, ScanError>)
    : Result<Option<StartExecutionRequest>, ScanError>
  {
    if Eligible(secret, tag) then outcome else Ok(None)
  }

  /** The requests an outcome sends: one, or none. */
  function Sends(o: Result<Option<StartExecutionRequest>, ScanError>): seq<StartExecutionRequest> {
    if o.Ok? && o.value.Some? then [o.value.value] else []
  }

  /** The requests sent so far, and whether an exception has ended the scan. */
  datatype Run = Run(sent: seq<StartExecutionRequest>, failed: bool)

  function TagStep(run: Run, secret: Secret, tag: Tag, outcome: Result<Option<StartExecutionRequest>, ScanError>): Run {
    if run.failed then run
    else
      var o := TagOutcome(secret, tag, outcome);
      Run(run.sent + Sends(o), o.Err?)
  }

  /** The inner loop over the first tags of a secret, from `run`. */
  function TagsRun(run: Run, secret: Secret, outcome: Result<Option<StartExecutionRequest>, ScanError>,
                   prefix: seq<Tag>): Run
    decreases |prefix|
  {
    if prefix == [] then run
    else TagStep(TagsRun(run, secret, outcome, prefix[..|prefix| - 1]), secret, prefix[|prefix| - 1], outcome)
  }

  function SecretStep(run: Run, stateMachineArn: JsString, secret: Secret, env: Env): Run {
    if secret.tags.Some? && |secret.tags.value| > 0 then
      TagsRun(run, secret, SecretOutcome(stateMachineArn, secret, secret.tags.value, env), secret.tags.value)
    else run
  }

  /** The outer loop over the first secrets of the list, from `run`. */
  function SecretsRun(run: Run, stateMachineArn: JsString, secrets: seq<Secret>, env: Env): Run
    decreases |secrets|
  {
    if secrets == [] then run
    else
      SecretStep(SecretsRun(run, stateMachineArn, secrets[..|secrets| - 1], env),
                 stateMachineArn, secrets[|secrets| - 1], env)
  }

  /** What one invocation of `handler` returns and which requests it sends. */
  function HandlerResult(event: Event, listing: ListOutcome, env: Env): (HandlerOutcome, seq<StartExecutionRequest>) {
    match ResolveArn(event)
    case None => (Returned(false), [])
    case Some(arn) =>
      match listing
      case ListFailed => (Rejected, [])
      case Listed(None) => (Returned(true), [])
      case Listed(Some(secrets)) =>
        var run := SecretsRun(Run([], false), arn, secrets, env);
        (Returned(!run.failed), run.sent)
  }

  lemma {:induction false} TagsRunFailedStays(run: Run, secret: Secret,
                                              outcome: Result<Option<StartExecutionRequest>, ScanError>,
                                              prefix: seq<Tag>)
    requires run.failed
    ensures TagsRun(run, secret, outcome, prefix) == run
    decreases |prefix|
  {
    if prefix != [] {
      TagsRunFailedStays(run, secret, outcome, prefix[..|prefix| - 1]);
    }
  }

  lemma {:induction false} SecretsRunFailedStays(run: Run, stateMachineArn: JsString, secrets: seq<Secret>, env: Env)
    requires run.failed
    ensures SecretsRun(run, stateMachineArn, secrets, env) == run
    decreases |secrets|
  {
    if secrets != [] {
      SecretsRunFailedStays(run, stateMachineArn, secrets[..|secrets| - 1], env);
      var last := secrets[|secrets| - 1];
      if last.tags.Some? && |last.tags.value| > 0 {
        TagsRunFailedStays(run, last, SecretOutcome(stateMachineArn, last, last.tags.value, env), last.tags.value);
      }
    }
  }

  /** The inner loop one tag further. */
  lemma TagsRunNext(run: Run, secret: Secret, outcome: Result<Option<StartExecutionRequest>, ScanError>,
                    tags: seq<Tag>, j: nat)
    requires j < |tags|
    ensures TagsRun(run, secret, outcome, tags[..j + 1])
         == TagStep(TagsRun(run, secret, outcome, tags[..j]), secret, tags[j], outcome)
  {
    assert tags[..j + 1][..j] == tags[..j];
  }

  /** Once an exception ends the inner loop, later tags change nothing. */
  lemma {:induction false} TagsRunStopsAtFailure(run: Run, secret: Secret,
                                                 outcome: Result<Option<StartExecutionRequest>, ScanError>,
                                                 tags: seq<Tag>, j: nat)
    requires j <= |tags|
    requires TagsRun(run, secret, outcome, tags[..j]).failed
    ensures TagsRun(run, secret, outcome, tags) == TagsRun(run, secret, outcome, tags[..j])
    decreases |tags| - j
  {
    if j < |tags| {
      var before := TagsRun(run, secret, outcome, tags[..j]);
      assert tags[..j + 1][..j] == tags[..j];
      assert TagsRun(run, secret, outcome, tags[..j + 1]) == before;
      TagsRunStopsAtFailure(run, secret, outcome, tags, j + 1);
    } else {
      assert tags[..j] == tags;
    }
  }

  /** Once an exception ends the outer loop, later secrets change nothing. */
  lemma {:induction false} SecretsRunStopsAtFailure(run: Run, stateMachineArn: JsString, secrets: seq<Secret>,
                                                    i: nat, env: Env)
    requires i <= |secrets|
    requires SecretsRun(run, stateMachineArn, secrets[..i], env).failed
    ensures SecretsRun(run, stateMachineArn, secrets, env) == SecretsRun(run, stateMachineArn, secrets[..i], env)
    decreases |secrets| - i
  {
    var before := SecretsRun(run, stateMachineArn, secrets[..i], env);
    if i < |secrets| {
      assert secrets[..i + 1][..i] == secrets[..i];
      var last := secrets[i];
      if last.tags.Some? && |last.tags.value| > 0 {
        TagsRunFailedStays(before, last, SecretOutcome(stateMachineArn, last, last.tags.value, env), last.tags.value);
      }
      assert SecretsRun(run, stateMachineArn, secrets[..i + 1], env) == before;
      SecretsRunStopsAtFailure(run, stateMachineArn, secrets, i + 1, env);
    } else {
      assert secrets[..i] == secrets;
    }
  }

  /**
   * A request the scanner may send: to the resolved state machine, for a
   * secret with a non-empty ARN, under a name of at most 80 code units.
   */
  predicate WellFormedRequest(req: StartExecutionRequest, stateMachineArn: JsString) {
    req.stateMachineArn == stateMachineArn && |req.name| <= 80 && req.input.resourceId != []
  }

  predicate AllWellFormed(reqs: seq<StartExecutionRequest>, stateMachineArn: JsString) {
    forall k :: 0 <= k < |reqs| ==> WellFormedRequest(reqs[k], stateMachineArn)
  }

  /** An outcome whose request, if any, is well formed. */
  predicate WellFormedOutcome(outcome: Result<Option<StartExecutionRequest>, ScanError>, stateMachineArn: JsString) {
    outcome.Ok? && outcome.value.Some? ==> WellFormedRequest(outcome.value.value, stateMachineArn)
  }

  lemma {:induction false} TagsRunWellFormed(run: Run, stateMachineArn: JsString, secret: Secret,
                                             outcome: Result<Option<StartExecutionRequest>, ScanError>,
                                             prefix: seq<Tag>)
    requires AllWellFormed(run.sent, stateMachineArn) && WellFormedOutcome(outcome, stateMachineArn)
    ensures AllWellFormed(TagsRun(run, secret, outcome, prefix).sent, stateMachineArn)
    decreases |prefix|
  {
    if prefix != [] {
      TagsRunWellFormed(run, stateMachineArn, secret, outcome, prefix[..|prefix| - 1]);
    }
  }

  lemma {:induction false} SecretsRunWellFormed(run: Run, stateMachineArn: JsString, secrets: seq<Secret>, env: Env)
    requires AllWellFormed(run.sent, stateMachineArn)
    ensures AllWellFormed(SecretsRun(run, stateMachineArn, secrets, env).sent, stateMachineArn)
    decreases |secrets|
  {
    if secrets != [] {
      var before := SecretsRun(run, stateMachineArn, secrets[..|secrets| - 1], env);
      SecretsRunWellFormed(run, stateMachineArn, secrets[..|secrets| - 1], env);
      var last := secrets[|secrets| - 1];
      if last.tags.Some? && |last.tags.value| > 0 {
        var outcome := SecretOutcome(stateMachineArn, last, last.tags.value, env);
        assert WellFormedOutcome(outcome, stateMachineArn);
        TagsRunWellFormed(before, stateMachineArn, last, outcome, last.tags.value);
      }
    }
  }

  /**
   * Every invocation: no state machine means `false` before anything is
   * listed; a failing ListSecrets rejects; and every request sent goes to
   * the resolved state machine, for a secret with an ARN, under a name of
   * at most 80 code units.
   */
  lemma HandlerRequests(event: Event, listing: ListOutcome, env: Env)
    ensures ResolveArn(event).None? ==> HandlerResult(event, listing, env) == (Returned(false), [])
    ensures ResolveArn(event).Some? && listing.ListFailed? ==> HandlerResult(event, listing, env) == (Rejected, [])
    ensures ResolveArn(event).Some? ==> AllWellFormed(HandlerResult(event, listing, env).1, ResolveArn(event).value)
  {
    if ResolveArn(event).Some? && listing.Listed? && listing.secretList.Some? {
      SecretsRunWellFormed(Run([], false), ResolveArn(event).value, listing.secretList.value, env);
    }
  }

  /** Some tag of the list makes the secret eligible for scheduling. */
  predicate HasEligibleTag(secret: Secret, tags: seq<Tag>) {
    exists j :: 0 <= j < |tags| && Eligible(secret, tags[j])
  }

  /**
   * A secret whose scan throws: it has a non-empty tag list with an eligible
   * tag, and scheduling it raises an exception.
   */
  predicate SecretThrows(stateMachineArn: JsString, secret: Secret, env: Env) {
    secret.tags.Some? && |secret.tags.value| > 0 && HasEligibleTag(secret, secret.tags.value)
    && SecretOutcome(stateMachineArn, secret, secret.tags.value, env).Err?
  }

  /** The tag loop fails exactly when it starts failed, or an eligible tag meets a failing outcome. */
  lemma {:induction false} TagsRunFails(run: Run, secret: Secret,
                                        outcome: Result<Option<StartExecutionRequest>, ScanError>,
                                        prefix: seq<Tag>)
    ensures TagsRun(run, secret, outcome, prefix).failed
            <==> run.failed || (outcome.Err? && HasEligibleTag(secret, prefix))
    decreases |prefix|
  {
    if prefix != [] {
      var init := prefix[..|prefix| - 1];
      TagsRunFails(run, secret, outcome, init);
      if HasEligibleTag(secret, init) {
        var j :| 0 <= j < |init| && Eligible(secret, init[j]);
        assert prefix[j] == init[j];
      }
      if HasEligibleTag(secret, prefix) && !Eligible(secret, prefix[|prefix| - 1]) {
        var j :| 0 <= j < |prefix| && Eligible(secret, prefix[j]);
        assert init[j] == prefix[j];
      }
    }
  }

  /** One secret fails the scan exactly when the scan had failed already or that secret throws. */
  lemma SecretStepFails(before: Run, stateMachineArn: JsString, secret: Secret, env: Env)
    ensures SecretStep(before, stateMachineArn, secret, env).failed
            <==> before.failed || SecretThrows(stateMachineArn, secret, env)
  {
    if secret.tags.Some? && |secret.tags.value| > 0 {
      TagsRunFails(before, secret, SecretOutcome(stateMachineArn, secret, secret.tags.value, env), secret.tags.value);
    }
  }

  /** Which secrets of the list throw, one flag per secret. */
  function ThrowingSecrets(stateMachineArn: JsString, secrets: seq<Secret>, env: Env): (flags: seq<bool>)
    ensures |flags| == |secrets|
    decreases |secrets|
  {
    if secrets == [] then []
    else ThrowingSecrets(stateMachineArn, secrets[..|secrets| - 1], env)
         + [SecretThrows(stateMachineArn, secrets[|secrets| - 1], env)]
  }

  /** The flag of each secret says whether that secret throws. */
  lemma {:induction false} ThrowingSecretsAt(stateMachineArn: JsString, secrets: seq<Secret>, env: Env, i: nat)
    requires i < |secrets|
    ensures ThrowingSecrets(stateMachineArn, secrets, env)[i] == SecretThrows(stateMachineArn, secrets[i], env)
    decreases |secrets|
  {
    if i < |secrets| - 1 {
      ThrowingSecretsAt(stateMachineArn, secrets[..|secrets| - 1], env, i);
      assert secrets[..|secrets| - 1][i] == secrets[i];
    }
  }

  /** The secret loop fails exactly when it starts failed or one of the secrets throws. */
  lemma {:induction false} SecretsRunFails(run: Run, stateMachineArn: JsString, secrets: seq<Secret>, env: Env)
    ensures SecretsRun(run, stateMachineArn, secrets, env).failed
            <==> run.failed || true in ThrowingSecrets(stateMachineArn, secrets, env)
    decreases |secrets|
  {
    if secrets != [] {
      var init := secrets[..|secrets| - 1];
      var last := secrets[|secrets| - 1];
      SecretsRunFails(run, stateMachineArn, init, env);
      SecretStepFails(SecretsRun(run, stateMachineArn, init, env), stateMachineArn, last, env);
      var flags := ThrowingSecrets(stateMachineArn, init, env);
      assert true in flags + [SecretThrows(stateMachineArn, last, env)]
             <==> true in flags || SecretThrows(stateMachineArn, last, env);
    }
  }

  /**
   * Once the state machine is resolved and the secrets are listed, the
   * handler resolves (it never rejects), and it returns false exactly when
   * the scan of some secret throws into the catch-all.
   */
  lemma HandlerReturns(event: Event, listing: ListOutcome, env: Env)
    ensures ResolveArn(event).Some? && listing == Listed(None) ==> HandlerResult(event, listing, env).0 == Returned(true)
    ensures ResolveArn(event).Some? && listing.Listed? && listing.secretList.Some? ==>
      HandlerResult(event, listing, env).0.Returned?
      && (HandlerResult(event, listing, env).0 == Returned(false)
          <==> exists i :: 0 <= i < |listing.secretList.value|
                 && SecretThrows(ResolveArn(event).value, listing.secretList.value[i], env))
  {
    if ResolveArn(event).Some? && listing.Listed? && listing.secretList.Some? {
      var arn, secrets := ResolveArn(event).value, listing.secretList.value;
      var flags := ThrowingSecrets(arn, secrets, env);
      SecretsRunFails(Run([], false), arn, secrets, env);
      if true in flags {
        var i :| 0 <= i < |flags| && flags[i];
        ThrowingSecretsAt(arn, secrets, env, i);
      }
      if exists i :: 0 <= i < |secrets| && SecretThrows(arn, secrets[i], env) {
        var i :| 0 <= i < |secrets| && SecretThrows(arn, secrets[i], env);
        ThrowingSecretsAt(arn, secrets, env, i);
        assert flags[i];
      }
    }
  }

  /** A secret whose outcome is nothing sends nothing and cannot fail, whatever its tags. */
  lemma {:induction false} TagsRunQuiet(run: Run, secret: Secret, prefix: seq<Tag>)
    ensures TagsRun(run, secret, Ok(None), prefix) == run
    decreases |prefix|
  {
    if prefix != [] {
      TagsRunQuiet(run, secret, prefix[..|prefix| - 1]);
    }
  }

  /** Tags that give no start schedule make the inner loop send nothing and never fail. */
  lemma TagsRunIdle(run: Run, stateMachineArn: JsString, secret: Secret, tags: seq<Tag>, prefix: seq<Tag>, env: Env)
    requires GetTags(Some(tags)).startSchedule.None?
    ensures TagsRun(run, secret, SecretOutcome(stateMachineArn, secret, tags, env), prefix) == run
  {
    if secret.arn.Some? {
      DispatchSends(stateMachineArn, secret.arn.value, secret.name, tags, env);
    }
    TagsRunQuiet(run, secret, prefix);
  }

  /**
   * Because `getTags` keeps the last tag only, a secret whose last tag is
   * not `autodump:start-schedule` sends nothing and cannot fail, even when
   * an earlier tag holds a schedule.
   */
  lemma SecretNeedsScheduleLast(run: Run, stateMachineArn: JsString, secret: Secret, env: Env)
    requires secret.tags.Some? && secret.tags.value != []
    requires secret.tags.value[|secret.tags.value| - 1].key != Some(START_SCHEDULE)
    ensures SecretStep(run, stateMachineArn, secret, env) == run
  {
    var tags := secret.tags.value;
    GetTagsLastTagOnly(Some(tags));
    TagsRunIdle(run, stateMachineArn, secret, tags, tags, env);
  }

  /** The number of tags keyed `autodump:start-schedule`. */
  function ScheduleTagCount(prefix: seq<Tag>): nat
    decreases |prefix|
  {
    if prefix == [] then 0 else ScheduleTagCount(prefix[..|prefix| - 1]) + ScheduleTagOne(prefix[|prefix| - 1])
  }

  function ScheduleTagOne(tag: Tag): nat {
    if tag.key == Some(START_SCHEDULE) then 1 else 0
  }

  /** n copies of one request. */
  function Repeat(req: StartExecutionRequest, n: nat): seq<StartExecutionRequest> {
    if n == 0 then [] else Repeat(req, n - 1) + [req]
  }

  /**
   * When a secret leads to a request, the inner loop sends that request once
   * for every `autodump:start-schedule` tag and never fails.
   */
  lemma {:induction false} TagsRunRepeats(run: Run, secret: Secret, req: StartExecutionRequest, prefix: seq<Tag>)
    requires !run.failed && secret.arn.Some?
    ensures TagsRun(run, secret, Ok(Some(req)), prefix) == Run(run.sent + Repeat(req, ScheduleTagCount(prefix)), false)
    decreases |prefix|
  {
    if prefix != [] {
      var init, last := prefix[..|prefix| - 1], prefix[|prefix| - 1];
      TagsRunRepeats(run, secret, req, init);
      TagStepRepeats(TagsRun(run, secret, Ok(Some(req)), init), secret, last, req);
      RepeatSnoc(run.sent, req, ScheduleTagCount(init), ScheduleTagOne(last));
    }
  }

  /** One more tag adds one more copy exactly when it is a start-schedule tag. */
  lemma RepeatSnoc(sent: seq<StartExecutionRequest>, req: StartExecutionRequest, n: nat, k: nat)
    requires k <= 1
    ensures sent + Repeat(req, n) + Repeat(req, k) == sent + Repeat(req, n + k)
  {
    var r := Repeat(req, n);
    if k == 0 {
      assert sent + r + [] == sent + r;
    } else {
      assert Repeat(req, 1) == [req];
      assert Repeat(req, n + 1) == r + [req];
      assert sent + r + [req] == sent + (r + [req]);
    }
  }

  lemma TagStepRepeats(before: Run, secret: Secret, tag: Tag, req: StartExecutionRequest)
    requires !before.failed && secret.arn.Some?
    ensures TagStep(before, secret, tag, Ok(Some(req))) == Run(before.sent + Repeat(req, ScheduleTagOne(tag)), false)
  {
    if tag.key == Some(START_SCHEDULE) {
      assert Repeat(req, 1) == [req];
    }
  }

  /** The request a scheduled secret leads to: the action at `iso` under the secret's job name. */
  function ScheduledRequest(stateMachineArn: JsString, secretArn: JsString, name: Option<JsString>,
                            databaseName: Option<JsString>, schedule: JsString, iso: JsString, env: Env)
    : StartExecutionRequest
  {
    StartExecutionRequest(
      stateMachineArn,
      Action(secretArn, HashTagsV1(AutoDumpTags(None, Some(schedule))), iso),
      JobName(name, databaseName, FormatTimestamp(env.dateParts(iso))))
  }

  /**
   * A secret whose last tag is `autodump:start-schedule`, with a valid
   * schedule that has a next occurrence, is scheduled at that occurrence,
   * read in UTC, with the fingerprint of the trimmed schedule.
   */
  lemma ScannedScheduleAction(secretArn: JsString, tags: seq<Tag>, value: JsString, iso: JsString,
                              now: int, nextFire: NextFire)
    requires tags != [] && tags[|tags| - 1] == Tag(Some(START_SCHEDULE), Some(value))
    requires ValidateCron(Some(Trim(value))) == Ok(Some(Normalize(Trim(value))))
    requires nextFire(Normalize(Trim(value)), UTC, now + 60000) == NextAt(iso)
    ensures ScheduledActions(ScannedResource(secretArn, tags), now, nextFire)
         == Ok([Action(secretArn, HashTagsV1(AutoDumpTags(None, Some(Trim(value)))), iso)])
  {
    GetTagsLastTagOnly(Some(tags));
    var resource := ScannedResource(secretArn, tags);
    assert resource.tags == AutoDumpTags(None, Some(Trim(value)));
  }

  /**
   * An eligible tag of a secret whose last tag is `autodump:start-schedule`,
   * with a valid schedule that has a next occurrence and a secret that can
   * be read, sends the action at that occurrence, read in UTC, carrying the
   * fingerprint of the trimmed schedule.
   */
  lemma ScheduledTagSends(stateMachineArn: JsString, secretArn: JsString, name: Option<JsString>, tags: seq<Tag>,
                          value: JsString, iso: JsString, env: Env)
    requires secretArn != [] && tags != [] && tags[|tags| - 1] == Tag(Some(START_SCHEDULE), Some(value))
    requires ValidateCron(Some(Trim(value))) == Ok(Some(Normalize(Trim(value))))
    requires env.nextFire(Normalize(Trim(value)), UTC, env.now + 60000) == NextAt(iso)
    requires env.lookup(secretArn).Found?
    ensures Dispatch(stateMachineArn, secretArn, name, tags, env)
         == Ok(Some(ScheduledRequest(stateMachineArn, secretArn, name, env.lookup(secretArn).databaseName,
                                     Trim(value), iso, env)))
  {
    ScannedScheduleAction(secretArn, tags, value, iso, env.now, env.nextFire);
    DispatchSends(stateMachineArn, secretArn, name, tags, env);
  }

  /**
   * Such a secret makes the scan send its request once for every
   * `autodump:start-schedule` tag, and at least once.
   */
  lemma ScheduledSecretSends(run: Run, stateMachineArn: JsString, secret: Secret, value: JsString, iso: JsString,
                             env: Env)
    requires !run.failed && secret.arn.Some? && secret.arn.value != []
    requires secret.tags.Some? && secret.tags.value != []
    requires secret.tags.value[|secret.tags.value| - 1] == Tag(Some(START_SCHEDULE), Some(value))
    requires ValidateCron(Some(Trim(value))) == Ok(Some(Normalize(Trim(value))))
    requires env.nextFire(Normalize(Trim(value)), UTC, env.now + 60000) == NextAt(iso)
    requires env.lookup(secret.arn.value).Found?
    ensures ScheduleTagCount(secret.tags.value) >= 1
    ensures SecretStep(run, stateMachineArn, secret, env)
         == Run(run.sent + Repeat(ScheduledRequest(stateMachineArn, secret.arn.value, secret.name,
                                                   env.lookup(secret.arn.value).databaseName, Trim(value), iso, env),
                                  ScheduleTagCount(secret.tags.value)), false)
  {
    var tags := secret.tags.value;
    var req := ScheduledRequest(stateMachineArn, secret.arn.value, secret.name,
                                env.lookup(secret.arn.value).databaseName, Trim(value), iso, env);
    ScheduledTagSends(stateMachineArn, secret.arn.value, secret.name, tags, value, iso, env);
    TagsRunRepeats(run, secret, req, tags);
  }

  /** One invocation of the scanner Lambda, with a log of the StartExecution requests it sends. */
  class ScanRun {
    /** Every StartExecution request sent, in order; the outcome of each send is ignored. */
    var sent: seq<StartExecutionRequest>
    /** The handler's `resources` and `action` arrays, emptied after every eligible tag. */
    var resources: seq<Resource>
    var action: seq<Action>

    constructor()
      ensures sent == [] && resources == [] && action == []
    {
      sent := [];
      resources := [];
      action := [];
    }

    /** The body of the tag loop for one tag of a secret that has tags. */
    method ScanTag(stateMachineArn: JsString, secret: Secret, tags: seq<Tag>, tag: Tag, env: Env)
      returns (failed: bool)
      requires resources == [] && action == []
      modifies this
      ensures failed == TagOutcome(secret, tag, SecretOutcome(stateMachineArn, secret, tags, env)).Err?
      ensures sent == old(sent) + Sends(TagOutcome(secret, tag, SecretOutcome(stateMachineArn, secret, tags, env)))
      ensures !failed ==> resources == [] && action == []
    {
      failed := false;
      if tag.key == Some(START_SCHEDULE) && secret.arn.Some? {
        var secretArn := secret.arn.value;
        resources := resources + [ScannedResource(secretArn, tags)];
        var nextTime := NextAction(resources[0], env.now, env.nextFire);
        failed := ScheduleNext(stateMachineArn, secretArn, secret.name, resources[0].tagsHash, nextTime, env);
      }
    }

    /** The rest of the tag loop's body, once `nextAction` has chosen. */
    method ScheduleNext(stateMachineArn: JsString, secretArn: JsString, name: Option<JsString>, tagsHash: JsString,
                        nextTime: Result<Option<Action>, CronError>, env: Env)
      returns (failed: bool)
      requires action == []
      modifies this
      ensures failed == RequestFor(stateMachineArn, secretArn, name, tagsHash, nextTime, env).Err?
      ensures sent == old(sent) + Sends(RequestFor(stateMachineArn, secretArn, name, tagsHash, nextTime, env))
      ensures !failed ==> resources == [] && action == []
    {
      failed := false;
      if nextTime.Err? {
        return true;
      }
      if secretArn != [] && nextTime.value.Some? {
        failed := SendAction(stateMachineArn, Action(secretArn, tagsHash, nextTime.value.value.when), name, env);
        if failed {
          return;
        }
      }
      resources := [];
      action := [];
    }

    /**
     * From `action.push` to the StartExecution call: the action is recorded,
     * the job name built, and the request sent.
     */
    method SendAction(stateMachineArn: JsString, next: Action, name: Option<JsString>, env: Env)
      returns (failed: bool)
      requires action == []
      modifies this
      ensures failed == ActionRequest(stateMachineArn, next, name, env).Err?
      ensures sent == old(sent) + if failed then [] else [ActionRequest(stateMachineArn, next, name, env).value]
      ensures resources == old(resources)
    {
      action := action + [next];
      var executionTime := FormatTimestamp(env.dateParts(next.when));
      var lookup := env.lookup(next.resourceId);
      if lookup.LookupFailed? {
        return true;
      }
      var jobName := JobName(name, lookup.databaseName, executionTime);
      // a failed StartExecution is logged as a duplicate and otherwise ignored
      sent := sent + [StartExecutionRequest(stateMachineArn, action[0], jobName)];
      failed := false;
    }

    /** The tag loop over a secret with a non-empty tag list. */
    method ScanTags(stateMachineArn: JsString, secret: Secret, tags: seq<Tag>, env: Env,
                    ghost base: seq<StartExecutionRequest>, ghost before: Run)
      returns (failed: bool)
      requires !before.failed && sent == base + before.sent
      requires resources == [] && action == []
      modifies this
      ensures failed == TagsRun(before, secret, SecretOutcome(stateMachineArn, secret, tags, env), tags).failed
      ensures sent == base + TagsRun(before, secret, SecretOutcome(stateMachineArn, secret, tags, env), tags).sent
      ensures !failed ==> resources == [] && action == []
    {
      ghost var outcome := SecretOutcome(stateMachineArn, secret, tags, env);
      for j := 0 to |tags|
        invariant !TagsRun(before, secret, outcome, tags[..j]).failed
        invariant sent == base + TagsRun(before, secret, outcome, tags[..j]).sent
        invariant resources == [] && action == []
      {
        TagsRunNext(before, secret, outcome, tags, j);
        failed := ScanTag(stateMachineArn, secret, tags, tags[j], env);
        if failed {
          TagsRunStopsAtFailure(before, secret, outcome, tags, j + 1);
          return;
        }
      }
      assert tags[..|tags|] == tags;
      failed := false;
    }

    /** The body of the secret loop: only a secret with a non-empty tag list runs the tag loop. */
    method ScanSecret(stateMachineArn: JsString, secret: Secret, env: Env,
                      ghost base: seq<StartExecutionRequest>, ghost before: Run)
      returns (failed: bool)
      requires !before.failed && sent == base + before.sent
      requires resources == [] && action == []
      modifies this
      ensures failed == SecretStep(before, stateMachineArn, secret, env).failed
      ensures sent == base + SecretStep(before, stateMachineArn, secret, env).sent
      ensures !failed ==> resources == [] && action == []
    {
      failed := false;
      if secret.tags.Some? && |secret.tags.value| > 0 {
        failed := ScanTags(stateMachineArn, secret, secret.tags.value, env, base, before);
      }
    }

    /**
     * `handler(event)`: resolve the state machine, read one page of secrets,
     * and for every eligible tag send one StartExecution request.
     */
    method Handler(event: Event, listing: ListOutcome, env: Env) returns (outcome: HandlerOutcome)
      modifies this
      ensures outcome == HandlerResult(event, listing, env).0
      ensures sent == old(sent) + HandlerResult(event, listing, env).1
    {
      var stateMachineArn: Option<JsString> := None;
      if event.stateMachineId.Some? {
        stateMachineArn := event.stateMachineId;
      }
      if event.inputArn.Some? {
        stateMachineArn := event.inputArn;
      }
      if stateMachineArn.None? {
        return Returned(false);
      }
      var arn := stateMachineArn.value;
      // a single page: the request never carries a NextToken
      if listing.ListFailed? {
        return Rejected;
      }
      if listing.secretList.None? {
        return Returned(true);
      }
      var secrets := listing.secretList.value;
      resources := [];
      action := [];
      ghost var base := sent;
      ghost var start := Run([], false);
      for i := 0 to |secrets|
        invariant !SecretsRun(start, arn, secrets[..i], env).failed
        invariant sent == base + SecretsRun(start, arn, secrets[..i], env).sent
        invariant resources == [] && action == []
      {
        assert secrets[..i + 1][..i] == secrets[..i];
        var failed := ScanSecret(arn, secrets[i], env, base, SecretsRun(start, arn, secrets[..i], env));
        if failed {
          SecretsRunStopsAtFailure(start, arn, secrets, i + 1, env);
          return Returned(false);
        }
      }
      assert secrets[..|secrets|] == secrets;
      return Returned(true);
    }
  }
}
