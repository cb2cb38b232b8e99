/**
 * The scheduler Lambda (src/scheduler.ts): Step Functions invokes it with a
 * dump action it scheduled earlier. It describes the RDS instance or
 * cluster again, checks that the scheduling tags still have the fingerprint
 * the action was made with, schedules the next dump, and answers whether
 * the dump may run now.
 *
 * DescribeDBInstances and DescribeDBClusters are given as their outcomes,
 * and StartExecution, cron-parser, luxon and the clock as the parameters in
 * `SchedulerEnv`. `cyrb53` and `optionalCron` are the shared definitions of
 * HashHelper and CronDialect.
 */
module Scheduler {
  import opened Wrappers
  import opened JsStrings
  import opened Decimal
  import opened HashHelper
  import opened CronDialect

  // ---------------------------------------------------------------------
  // tags and their fingerprint

  /** The scheduling tags of an RDS instance or cluster (the `AutoDumpTags` interface). */
  datatype RdsDumpTags = RdsDumpTags(
    timezone: Option<JsString>,
    dumpSchedule: Option<JsString>,
    databaseName: Option<JsString>,
    retentionDays: Option<JsString>)

  const NO_TAGS: RdsDumpTags := RdsDumpTags(None, None, None, None)

  /** The hashed subject: every field, absent ones as "", each followed by "|". */
  function DumpSubject(tags: RdsDumpTags): (r: JsString)
    ensures r != [] && r[|r| - 1] == PIPE
  {
    tags.timezone.GetOr([]) + [PIPE] + tags.dumpSchedule.GetOr([]) + [PIPE]
      + tags.databaseName.GetOr([]) + [PIPE] + tags.retentionDays.GetOr([]) + [PIPE]
  }

  /** `hashTagsV1` of the scheduler: the "V1" fingerprint of the four-field subject. */
  function DumpTagsHash(tags: RdsDumpTags): (r: JsString)
    ensures |r| > |VERSION_PREFIX| && r[..2] == VERSION_PREFIX
    ensures AllDigits(r[2..]) && DigitsValue(r[2..]) == Cyrb53Value(DumpSubject(tags), 0)
  {
    Fingerprint(DumpSubject(tags))
  }

  /** An absent tag and a tag with the empty value give the same fingerprint. */
  lemma DumpAbsentHashesAsEmpty(tags: RdsDumpTags)
    ensures DumpTagsHash(tags.(timezone := None)) == DumpTagsHash(tags.(timezone := Some([])))
    ensures DumpTagsHash(tags.(dumpSchedule := None)) == DumpTagsHash(tags.(dumpSchedule := Some([])))
    ensures DumpTagsHash(tags.(databaseName := None)) == DumpTagsHash(tags.(databaseName := Some([])))
    ensures DumpTagsHash(tags.(retentionDays := None)) == DumpTagsHash(tags.(retentionDays := Some([])))
  {
  }

  // ---------------------------------------------------------------------
  // actions and resources

  const RDS_INSTANCE: JsString := Lit("rds-instance")
  const RDS_CLUSTER: JsString := Lit("rds-cluster")
  const DUMP: JsString := Lit("dump")

  /**
   * `AutoDumpAction`. The resource type comes from the execution input and
   * may be any string; `action` is absent in the action `cronAction` builds
   * when there is no next occurrence.
   */
  datatype DumpAction = DumpAction(
    resourceType: JsString,
    resourceId: JsString,
    tagHash: JsString,
    when: JsString,
    action: Option<JsString>)

  /** `AutoDumpResource`, with the `state` that `processStateAction` reads. */
  datatype RdsResource = RdsResource(
    resourceType: JsString,
    id: JsString,
    tags: RdsDumpTags,
    tagsHash: JsString,
    state: Option<JsString>)

  function DumpWhen(a: DumpAction): JsString {
    a.when
  }

  /** The timezone a resource's schedule is read in: its tag, else UTC. */
  function ZoneOf(resource: RdsResource): JsString {
    resource.tags.timezone.GetOr(UTC)
  }

  // ---------------------------------------------------------------------
  // cronAction, cronActions, nextAction

  /**
   * `cronAction(resource, action, cronExpression)`: an action at the next
   * occurrence; when the expression is empty or has no next occurrence, an
   * action with an empty `when` and no `action` field; or the error
   * `optionalCron` throws.
   */
  function CronAction(resource: RdsResource, kind: JsString, cronExpression: JsString, now: int, nextFire: NextFire)
    : (r: Result<DumpAction, CronError>)
    ensures r.Ok? ==> r.value.resourceType == resource.resourceType && r.value.resourceId == resource.id
    ensures r.Err? <==> OptionalCron(Some(cronExpression), ZoneOf(resource), now, nextFire).Err?
    ensures r.Ok? && r.value.action.Some? ==>
      r.value.action == Some(kind)
      && OptionalCron(Some(cronExpression), ZoneOf(resource), now, nextFire) == Ok(Some(Schedule(Some(r.value.when))))
    ensures r.Ok? && r.value.action.None? ==>
      r.value.when == []
      && OptionalCron(Some(cronExpression), ZoneOf(resource), now, nextFire) in {Ok(None), Ok(Some(Schedule(None)))}
  {
    var tagHash := DumpTagsHash(resource.tags);
    match OptionalCron(Some(cronExpression), ZoneOf(resource), now, nextFire)
    case Err(e) => Err(e)
    case Ok(Some(Schedule(Some(iso)))) => Ok(DumpAction(resource.resourceType, resource.id, tagHash, iso, Some(kind)))
    case Ok(_) => Ok(DumpAction(resource.resourceType, resource.id, tagHash, [], None))
  }

  /**
   * What `cronActions` collects: one dump action when the resource has a
   * non-empty dump schedule, none otherwise.
   */
  function ScheduledDumps(resource: RdsResource, now: int, nextFire: NextFire)
    : (r: Result<seq<DumpAction>, CronError>)
    ensures r.Ok? ==> |r.value| == if Truthy(resource.tags.dumpSchedule) then 1 else 0
    ensures r.Ok? && r.value != [] ==>
      CronAction(resource, DUMP, resource.tags.dumpSchedule.value, now, nextFire) == Ok(r.value[0])
    ensures r.Err? ==>
      Truthy(resource.tags.dumpSchedule)
      && CronAction(resource, DUMP, resource.tags.dumpSchedule.value, now, nextFire).Err?
  {
    if !Truthy(resource.tags.dumpSchedule) then Ok([])
    else
      match CronAction(resource, DUMP, resource.tags.dumpSchedule.value, now, nextFire)
      case Err(e) => Err(e)
      case Ok(dump) => Ok([dump])
  }

  /** `cronActions(resource)`: pushes the dump action, if any, onto an empty list. */
  method CronActions(resource: RdsResource, now: int, nextFire: NextFire)
    returns (r: Result<seq<DumpAction>, CronError>)
    ensures r == ScheduledDumps(resource, now, nextFire)
  {
    var actions: seq<DumpAction> := [];
    if Truthy(resource.tags.dumpSchedule) {
      var dump := CronAction(resource, DUMP, resource.tags.dumpSchedule.value, now, nextFire);
      if dump.Err? {
        return Err(dump.error);
      }
      actions := actions + [dump.value];
      assert actions == [dump.value];
    }
    return Ok(actions);
  }

  /**
   * What `nextAction` selects: nothing exactly when the resource has no
   * dump schedule, otherwise its only action.
   */
  function NextDump(resource: RdsResource, now: int, nextFire: NextFire)
    : (r: Result<Option<DumpAction>, CronError>)
    ensures r.Err? <==> ScheduledDumps(resource, now, nextFire).Err?
    ensures r.Ok? ==> (r.value.None? <==> !Truthy(resource.tags.dumpSchedule))
    ensures r.Ok? && r.value.Some? ==> ScheduledDumps(resource, now, nextFire) == Ok([r.value.value])
  {
    match ScheduledDumps(resource, now, nextFire)
    case Err(e) => Err(e)
    case Ok(actions) =>
      if actions == [] then Ok(None)
      else Ok(Some(actions[EarliestIndex(actions, DumpWhen)]))
  }

  /** `nextAction(resource, priorAction)`; the prior action is not used. */
  method NextAction(resource: RdsResource, now: int, nextFire: NextFire)
    returns (r: Result<Option<DumpAction>, CronError>)
    ensures r == NextDump(resource, now, nextFire)
  {
    var actions := CronActions(resource, now, nextFire);
    if actions.Err? {
      return Err(actions.error);
    }
    var selected := SelectEarliest(actions.value, DumpWhen);
    return Ok(selected);
  }

  // ---------------------------------------------------------------------
  // calculateWhen

  const MINUTE_MS: int := 60000

  /**
   * `calculateWhen(time, minutes)` in milliseconds, with `time` already
   * parsed and the clock reading `now` as a parameter: `minutes` after
   * `time`, or, when that is in the past, the next minute after `now` with
   * the milliseconds cleared.
   */
  function CalculateWhen(time: int, minutes: int, now: int): (r: int)
    ensures r >= now
    ensures time + minutes * MINUTE_MS >= now ==> r == time + minutes * MINUTE_MS
    ensures time + minutes * MINUTE_MS < now ==> now + MINUTE_MS - 1000 < r <= now + MINUTE_MS && r % 1000 == 0
  {
    var when := time + minutes * MINUTE_MS;
    if when < now then now - now % 1000 + MINUTE_MS else when
  }

  // ---------------------------------------------------------------------
  // getActionName

  const UNDEFINED: JsString := Lit("undefined")
  const EXECUTION_NAME_LIMIT: nat := 80

  /** `${action.action}`: an absent field renders as "undefined". */
  function KindText(kind: Option<JsString>): JsString {
    kind.GetOr(UNDEFINED)
  }

  /** The id in the name: the decimal cyrb53 of the resource id when `hashId`, else the id. */
  function IdText(resourceId: JsString, hashId: bool): (r: JsString)
    ensures hashId ==> AllDigits(r) && DigitsValue(r) == Cyrb53Value(resourceId, 0)
    ensures !hashId ==> r == resourceId
  {
    if hashId then
      NatToStringRoundTrip(Cyrb53Value(resourceId, 0));
      NatToString(Cyrb53Value(resourceId, 0))
    else resourceId
  }

  /** The first template literal: `${resourceType}-${id}-${action}-`. */
  function NameHead(action: DumpAction, hashId: bool): JsString {
    action.resourceType + [DASH] + IdText(action.resourceId, hashId) + [DASH] + KindText(action.action) + [DASH]
  }

  /** The second template literal: the luxon rendering of `when`, "-", the fingerprint. */
  function NameTail(action: DumpAction, tags: RdsDumpTags, formatWhen: JsString -> JsString): JsString {
    formatWhen(action.when) + [DASH] + DumpTagsHash(tags)
  }

  /**
   * `getActionName` as written: `.slice(0, 80)` binds to the second
   * template literal only, so only that part is cut and the name is not
   * bounded.
   */
  function ActionNameAsWritten(action: DumpAction, tags: RdsDumpTags, hashId: bool, formatWhen: JsString -> JsString)
    : (r: JsString)
    ensures NameHead(action, hashId) <= r
    ensures |r| == |NameHead(action, hashId)| + Min(|NameTail(action, tags, formatWhen)|, EXECUTION_NAME_LIMIT)
  {
    NameHead(action, hashId) + Take(NameTail(action, tags, formatWhen), EXECUTION_NAME_LIMIT)
  }

  /**
   * A cluster id of 63 code units already makes the name longer than 80,
   * however the rest reads: the cut does not keep the name within the
   * limit.
   */
  lemma ActionNameAsWrittenTooLong(action: DumpAction, tags: RdsDumpTags, formatWhen: JsString -> JsString)
    requires action.resourceType == RDS_CLUSTER && |action.resourceId| >= 63
    ensures |ActionNameAsWritten(action, tags, false, formatWhen)| > EXECUTION_NAME_LIMIT
  {
  }

  /**
   * `getActionName` as evidently intended: the whole name cut to 80 code
   * units, a prefix of the untruncated name.
   */
  function ActionName(action: DumpAction, tags: RdsDumpTags, hashId: bool, formatWhen: JsString -> JsString)
    : (r: JsString)
    ensures |r| == Min(|NameHead(action, hashId) + NameTail(action, tags, formatWhen)|, EXECUTION_NAME_LIMIT)
    ensures r <= NameHead(action, hashId) + NameTail(action, tags, formatWhen)
  {
    Take(NameHead(action, hashId) + NameTail(action, tags, formatWhen), EXECUTION_NAME_LIMIT)
  }

  /** The two readings agree exactly on names that fit within 80 code units. */
  lemma ActionNameAgreesWhenShort(action: DumpAction, tags: RdsDumpTags, hashId: bool,
                                  formatWhen: JsString -> JsString)
    ensures ActionNameAsWritten(action, tags, hashId, formatWhen) == ActionName(action, tags, hashId, formatWhen)
        <==> |NameHead(action, hashId) + NameTail(action, tags, formatWhen)| <= EXECUTION_NAME_LIMIT
  {
    var head, tail := NameHead(action, hashId), NameTail(action, tags, formatWhen);
    if |head + tail| <= EXECUTION_NAME_LIMIT {
      assert Take(tail, EXECUTION_NAME_LIMIT) == tail;
    }
  }

  // ---------------------------------------------------------------------
  // rdsTags

  const DUMP_SCHEDULE: JsString := Lit("autodump:dump-schedule")
  const DATABASE_NAME: JsString := Lit("autodump:database-name")
  const RETENTION_DAYS: JsString := Lit("autodump:retention-days")

  /** The record keys the renamed tag keys give. */
  const DUMP_SCHEDULE_FIELD: JsString := Lit("dumpSchedule")
  const DATABASE_NAME_FIELD: JsString := Lit("databaseName")
  const RETENTION_DAYS_FIELD: JsString := Lit("retentionDays")

  predicate IsRdsDumpKey(key: Option<JsString>) {
    key == Some(DUMP_SCHEDULE) || key == Some(DATABASE_NAME) || key == Some(RETENTION_DAYS)
  }

  /** `tag.Value.trim()` on an absent Value throws a TypeError. */
  datatype TagError = ValueMissing

  /**
   * One step of the reduce in `rdsTags`: a tag with one of the three keys
   * sets its renamed key in the accumulator to the trimmed value.
   */
  function RdsTagStep(acc: map<JsString, JsString>, tag: Tag): Result<map<JsString, JsString>, TagError> {
    if !IsRdsDumpKey(tag.key) then Ok(acc)
    else if tag.value.None? then Err(ValueMissing)
    else Ok(acc[CamelCase(ReplaceFirst(tag.key.value, PREFIX, [])) := Trim(tag.value.value)])
  }

  /** `tags.reduce(RdsTagStep, acc)` */
  function RdsReduce(acc: map<JsString, JsString>, tags: seq<Tag>): Result<map<JsString, JsString>, TagError>
    decreases |tags|
  {
    if tags == [] then Ok(acc)
    else
      match RdsTagStep(acc, tags[0])
      case Err(e) => Err(e)
      case Ok(next) => RdsReduce(next, tags[1..])
  }

  function Field(record: map<JsString, JsString>, key: JsString): Option<JsString> {
    if key in record then Some(record[key]) else None
  }

  /** Reading a record through the `AutoDumpTags` interface. */
  function AsRdsDumpTags(record: map<JsString, JsString>): RdsDumpTags {
    RdsDumpTags(Field(record, TIMEZONE_FIELD), Field(record, DUMP_SCHEDULE_FIELD),
                Field(record, DATABASE_NAME_FIELD), Field(record, RETENTION_DAYS_FIELD))
  }

  /**
   * `rdsTags(tags)` as written: `{}` without a tag list; with one, the
   * reduce runs (and may throw) but its result is not returned, so the
   * function returns undefined (None).
   */
  function RdsTagsAsWritten(tags: Option<seq<Tag>>): (r: Result<Option<RdsDumpTags>, TagError>)
    ensures tags.None? ==> r == Ok(Some(NO_TAGS))
    ensures tags.Some? && r.Ok? ==> r.value.None?
    ensures tags.Some? ==> (r.Err? <==> HasMissingValue(tags.value))
  {
    match tags
    case None => Ok(Some(NO_TAGS))
    case Some(list) =>
      RdsTagsFields(list);
      match RdsReduce(map[], list)
      case Err(e) => Err(e)
      case Ok(_) => Ok(None)
  }

  /** `rdsTags(tags)` as evidently intended: the accumulated record is returned. */
  function RdsTags(tags: Option<seq<Tag>>): (r: Result<RdsDumpTags, TagError>)
    ensures tags.None? ==> r == Ok(NO_TAGS)
  {
    match tags
    case None => Ok(NO_TAGS)
    case Some(list) =>
      match RdsReduce(map[], list)
      case Err(e) => Err(e)
      case Ok(record) => Ok(AsRdsDumpTags(record))
  }

  /** The trimmed value of the last tag in `tags` with key `key`, if any. */
  function LastValue(tags: seq<Tag>, key: JsString): Option<JsString>
    decreases |tags|
  {
    if tags == [] then None
    else
      var last := tags[|tags| - 1];
      if last.key == Some(key) && last.value.Some? then Some(Trim(last.value.value))
      else LastValue(tags[..|tags| - 1], key)
  }

  /** Whether some tag with one of the three keys has no value. */
  predicate HasMissingValue(tags: seq<Tag>) {
    exists i :: 0 <= i < |tags| && IsRdsDumpKey(tags[i].key) && tags[i].value.None?
  }

  /** The reduce one tag further: the step applied to what the earlier tags gave. */
  lemma {:induction false} RdsReduceSnoc(acc: map<JsString, JsString>, tags: seq<Tag>, tag: Tag)
    ensures RdsReduce(acc, tags + [tag]) ==
      match RdsReduce(acc, tags)
      case Err(e) => Err(e)
      case Ok(record) => RdsTagStep(record, tag)
    decreases |tags|
  {
    if tags == [] {
      assert [] + [tag] == [tag];
      assert [tag][1..] == [];
    } else {
      assert (tags + [tag])[1..] == tags[1..] + [tag];
      match RdsTagStep(acc, tags[0])
      case Err(e) =>
      case Ok(next) => RdsReduceSnoc(next, tags[1..], tag);
    }
  }

  /**
   * The renamed keys of the three tags are the three record keys, and each
   * of them differs from the others and from "timezone".
   */
  lemma RdsKeysRenamed()
    ensures CamelCase(ReplaceFirst(DUMP_SCHEDULE, PREFIX, [])) == DUMP_SCHEDULE_FIELD
    ensures CamelCase(ReplaceFirst(DATABASE_NAME, PREFIX, [])) == DATABASE_NAME_FIELD
    ensures CamelCase(ReplaceFirst(RETENTION_DAYS, PREFIX, [])) == RETENTION_DAYS_FIELD
    ensures DUMP_SCHEDULE_FIELD != DATABASE_NAME_FIELD && DUMP_SCHEDULE_FIELD != RETENTION_DAYS_FIELD
    ensures DATABASE_NAME_FIELD != RETENTION_DAYS_FIELD
    ensures TIMEZONE_FIELD !in {DUMP_SCHEDULE_FIELD, DATABASE_NAME_FIELD, RETENTION_DAYS_FIELD}
  {
    DumpScheduleRenamed();
    DatabaseNameRenamed();
    RetentionDaysRenamed();
    RdsFieldsDistinct();
  }

  lemma RdsFieldsDistinct()
    ensures DUMP_SCHEDULE_FIELD != DATABASE_NAME_FIELD && DUMP_SCHEDULE_FIELD != RETENTION_DAYS_FIELD
    ensures DATABASE_NAME_FIELD != RETENTION_DAYS_FIELD
    ensures TIMEZONE_FIELD != DUMP_SCHEDULE_FIELD && TIMEZONE_FIELD != DATABASE_NAME_FIELD
    ensures TIMEZONE_FIELD != RETENTION_DAYS_FIELD
  {
    assert DUMP_SCHEDULE_FIELD[1] != DATABASE_NAME_FIELD[1];
    assert |DUMP_SCHEDULE_FIELD| != |RETENTION_DAYS_FIELD|;
    assert |DATABASE_NAME_FIELD| != |RETENTION_DAYS_FIELD|;
    assert |TIMEZONE_FIELD| != |DUMP_SCHEDULE_FIELD|;
    assert |TIMEZONE_FIELD| != |DATABASE_NAME_FIELD|;
    assert |TIMEZONE_FIELD| != |RETENTION_DAYS_FIELD|;
  }

  /** A prefixed two-word key becomes the camel-cased words. */
  lemma RenamedTwoWordKey(first: JsString, second: JsString)
    requires first != [] && AllAlnum(first) && IsLower(first[0])
    requires second != [] && AllAlnum(second)
    ensures CamelCase(ReplaceFirst(PREFIX + (first + [DASH] + second), PREFIX, [])) == first + Capitalize(second)
  {
    CamelCaseTwoWords(first, DASH, second);
    ReplaceFirstAtStart(PREFIX, first + [DASH] + second, []);
    assert [] + (first + [DASH] + second) == first + [DASH] + second;
  }

  lemma DumpScheduleRenamed()
    ensures CamelCase(ReplaceFirst(DUMP_SCHEDULE, PREFIX, [])) == DUMP_SCHEDULE_FIELD
  {
    TwoWords("dump", "schedule", "Schedule");
    DumpScheduleKey();
    DumpScheduleField();
    RenamedTwoWordKey(Lit("dump"), Lit("schedule"));
  }

  lemma DumpScheduleKey()
    ensures DUMP_SCHEDULE == PREFIX + (Lit("dump") + [DASH] + Lit("schedule"))
  {
    LitAppend("autodump:", "dump-schedule");
    LitAppend("dump-", "schedule");
    LitAppend("dump", "-");
  }

  lemma DumpScheduleField()
    ensures DUMP_SCHEDULE_FIELD == Lit("dump") + Lit("Schedule")
  {
    LitAppend("dump", "Schedule");
  }

  lemma DatabaseNameRenamed()
    ensures CamelCase(ReplaceFirst(DATABASE_NAME, PREFIX, [])) == DATABASE_NAME_FIELD
  {
    TwoWords("database", "name", "Name");
    DatabaseNameKey();
    DatabaseNameField();
    RenamedTwoWordKey(Lit("database"), Lit("name"));
  }

  lemma DatabaseNameKey()
    ensures DATABASE_NAME == PREFIX + (Lit("database") + [DASH] + Lit("name"))
  {
    LitAppend("autodump:", "database-name");
    LitAppend("database-", "name");
    LitAppend("database", "-");
  }

  lemma DatabaseNameField()
    ensures DATABASE_NAME_FIELD == Lit("database") + Lit("Name")
  {
    LitAppend("database", "Name");
  }

  lemma RetentionDaysRenamed()
    ensures CamelCase(ReplaceFirst(RETENTION_DAYS, PREFIX, [])) == RETENTION_DAYS_FIELD
  {
    TwoWords("retention", "days", "Days");
    RetentionDaysKey();
    RetentionDaysField();
    RenamedTwoWordKey(Lit("retention"), Lit("days"));
  }

  lemma RetentionDaysKey()
    ensures RETENTION_DAYS == PREFIX + (Lit("retention") + [DASH] + Lit("days"))
  {
    LitAppend("autodump:", "retention-days");
    LitAppend("retention-", "days");
    LitAppend("retention", "-");
  }

  lemma RetentionDaysField()
    ensures RETENTION_DAYS_FIELD == Lit("retention") + Lit("Days")
  {
    LitAppend("retention", "Days");
  }

  /**
   * With the result returned, `rdsTags` throws exactly when a tag with one
   * of the three keys has no value; otherwise each field holds the trimmed
   * value of the last tag with its key, and the timezone is never set.
   */
  lemma {:induction false} RdsTagsFields(tags: seq<Tag>)
    ensures RdsTags(Some(tags)).Err? <==> HasMissingValue(tags)
    ensures RdsTags(Some(tags)).Ok? ==>
      RdsTags(Some(tags)).value ==
      RdsDumpTags(None, LastValue(tags, DUMP_SCHEDULE), LastValue(tags, DATABASE_NAME), LastValue(tags, RETENTION_DAYS))
    decreases |tags|
  {
    if tags == [] {
      assert AsRdsDumpTags(map[]) == NO_TAGS;
    } else {
      var init, last := tags[..|tags| - 1], tags[|tags| - 1];
      assert init + [last] == tags;
      RdsTagsFields(init);
      RdsReduceSnoc(map[], init, last);
      HasMissingValueSnoc(init, last);
      RdsKeysRenamed();
    }
  }

  lemma HasMissingValueSnoc(tags: seq<Tag>, tag: Tag)
    ensures HasMissingValue(tags + [tag]) <==>
      HasMissingValue(tags) || (IsRdsDumpKey(tag.key) && tag.value.None?)
  {
    var all := tags + [tag];
    if HasMissingValue(tags) {
      var i :| 0 <= i < |tags| && IsRdsDumpKey(tags[i].key) && tags[i].value.None?;
      assert all[i] == tags[i];
    }
    if IsRdsDumpKey(tag.key) && tag.value.None? {
      assert all[|tags|] == tag;
    }
    if HasMissingValue(all) {
      var i :| 0 <= i < |all| && IsRdsDumpKey(all[i].key) && all[i].value.None?;
      if i < |tags| {
        assert tags[i] == all[i];
      }
    }
  }

  /**
   * The missing return loses every tag: a dump schedule tag gives undefined
   * as written, while the accumulated record holds the trimmed schedule.
   */
  lemma RdsTagsAsWrittenLosesSchedule(value: JsString)
    ensures RdsTagsAsWritten(Some([Tag(Some(DUMP_SCHEDULE), Some(value))])) == Ok(None)
    ensures RdsTags(Some([Tag(Some(DUMP_SCHEDULE), Some(value))])).Ok?
    ensures RdsTags(Some([Tag(Some(DUMP_SCHEDULE), Some(value))])).value.dumpSchedule == Some(Trim(value))
  {
    var tags := [Tag(Some(DUMP_SCHEDULE), Some(value))];
    RdsTagsFields(tags);
    assert !HasMissingValue(tags);
    assert tags[..0] == [];
  }

  // ---------------------------------------------------------------------
  // describeRdsInstances, describeRdsClusters

  /**
   * The resource `describeRdsInstances` pushes for one DB instance: its
   * tags through `rdsTags` and their fingerprint, and no `state`.
   */
  function DescribedInstance(instanceId: JsString, tagList: Option<seq<Tag>>): (r: Result<RdsResource, TagError>)
    ensures r.Ok? ==> r.value.state.None? && r.value.resourceType == RDS_INSTANCE
    ensures r.Ok? ==> r.value.tags.timezone.None?
  {
    match RdsTags(tagList)
    case Err(e) => Err(e)
    case Ok(tags) =>
      RdsTagsTimezone(tagList);
      Ok(RdsResource(RDS_INSTANCE, instanceId, tags, DumpTagsHash(tags), None))
  }

  /** The resource `describeRdsClusters` pushes for one DB cluster. */
  function DescribedCluster(clusterId: JsString, tagList: Option<seq<Tag>>): (r: Result<RdsResource, TagError>)
    ensures r.Ok? ==> r.value.state.None? && r.value.resourceType == RDS_CLUSTER
    ensures r.Ok? ==> r.value.tags.timezone.None?
  {
    match RdsTags(tagList)
    case Err(e) => Err(e)
    case Ok(tags) =>
      RdsTagsTimezone(tagList);
      Ok(RdsResource(RDS_CLUSTER, clusterId, tags, DumpTagsHash(tags), None))
  }

  /** `rdsTags` has no timezone key, so RDS schedules are always read in UTC. */
  lemma RdsTagsTimezone(tags: Option<seq<Tag>>)
    ensures RdsTags(tags).Ok? ==> RdsTags(tags).value.timezone.None?
  {
    if tags.Some? {
      RdsTagsFields(tags.value);
    }
  }

  // ---------------------------------------------------------------------
  // processStateAction

  const NO_LONGER_EXISTS: JsString := Lit("Instance no longer exists")
  const TAGS_DO_NOT_MATCH: JsString := Lit("Tags do not match execution")
  const CHECKS_PASSED: JsString := Lit("Checks passed")
  const NOT_STOPPED: JsString := Lit("Instance is not stopped")
  const STOPPED: JsString := Lit("stopped")

  /** `AutoDumpActionResult`: the action with the verdict and the resource checked. */
  datatype ActionResult = ActionResult(action: DumpAction, execute: bool, reason: JsString, resource: Option<RdsResource>)

  /** What a describe call did: threw, or returned resources. */
  datatype Describe = DescribeThrew | Described(resources: seq<RdsResource>)

  /** The exceptions that reject the scheduler's promise. */
  datatype SchedulerError =
    | DescribeFailed
    | BadSchedule(error: CronError)
    | StartFailed
    | UnsupportedResourceType(resourceType: JsString)

  datatype StartRequest = StartRequest(stateMachineArn: JsString, input: DumpAction, name: JsString)

  /**
   * The outside world of one invocation: the clock, cron-parser, luxon's
   * rendering of a `when`, and whether StartExecution accepts a request.
   */
  datatype SchedulerEnv = SchedulerEnv(
    now: int,
    nextFire: NextFire,
    formatWhen: JsString -> JsString,
    accepts: StartRequest -> bool)

  /** What an invocation resolves to or rejects with, and the StartExecution requests it sent. */
  datatype Wake = Wake(result: Result<Option<ActionResult>, SchedulerError>, sent: seq<StartRequest>)

  /** The resources described for the action's type; none for any other type. */
  function DescribedFor(action: DumpAction, instances: Describe, clusters: Describe)
    : (r: Result<seq<RdsResource>, SchedulerError>)
    ensures r.Err? <==> (action.resourceType == RDS_INSTANCE && instances.DescribeThrew?)
                        || (action.resourceType == RDS_CLUSTER && clusters.DescribeThrew?)
    ensures r.Ok? && r.value != [] ==>
      (action.resourceType == RDS_INSTANCE && r.value == instances.resources)
      || (action.resourceType == RDS_CLUSTER && r.value == clusters.resources)
  {
    var d := if action.resourceType == RDS_INSTANCE then instances
             else if action.resourceType == RDS_CLUSTER then clusters
             else Described([]);
    if d.DescribeThrew? then Err(DescribeFailed) else Ok(d.resources)
  }

  /** `startExecution(stateMachineArn, resource, action)` */
  function StartExecution(stateMachineArn: JsString, resource: RdsResource, next: Option<DumpAction>,
                          env: SchedulerEnv): (r: Wake)
    ensures r.result.Ok? ==> r.result.value.None?
    ensures next.None? ==> r == Wake(Ok(None), [])
    ensures next.Some? ==>
      |r.sent| == 1 && r.sent[0].input == next.value
      && r.sent[0].stateMachineArn == stateMachineArn && |r.sent[0].name| <= EXECUTION_NAME_LIMIT
      && r.sent[0].name <= NameHead(next.value, resource.resourceType == RDS_INSTANCE)
                           + NameTail(next.value, resource.tags, env.formatWhen)
      && (r.result.Err? <==> !env.accepts(r.sent[0]))
  {
    match next
    case None => Wake(Ok(None), [])
    case Some(action) =>
      var name := ActionName(action, resource.tags, resource.resourceType == RDS_INSTANCE, env.formatWhen);
      var request := StartRequest(stateMachineArn, action, name);
      if env.accepts(request) then Wake(Ok(None), [request]) else Wake(Err(StartFailed), [request])
  }

  /** The verdict on a dump whose tags still match: run it only on a stopped resource. */
  function DumpVerdict(action: DumpAction, resource: RdsResource): (r: ActionResult)
    ensures r.execute <==> resource.state == Some(STOPPED)
    ensures r.action == action && r.resource == Some(resource)
  {
    if resource.state == Some(STOPPED) then ActionResult(action, true, CHECKS_PASSED, Some(resource))
    else ActionResult(action, false, NOT_STOPPED, Some(resource))
  }

  /**
   * `processStateAction(stateMachineArn, action)`: a missing resource and a
   * changed fingerprint end the check; a dump schedules the next dump of the
   * resource and runs only on a stopped resource; any other action gives
   * undefined.
   */
  function ProcessStateAction(stateMachineArn: JsString, action: DumpAction, instances: Describe, clusters: Describe,
                              env: SchedulerEnv): (r: Wake)
    ensures r.result.Ok? && r.result.value.Some? ==> r.result.value.value.action == action
    ensures DescribedFor(action, instances, clusters) == Ok([]) ==>
      r == Wake(Ok(Some(ActionResult(action, false, NO_LONGER_EXISTS, None))), [])
    ensures r.sent != [] || (r.result.Ok? && r.result.value.Some? && r.result.value.value.execute) ==>
      var described := DescribedFor(action, instances, clusters);
      described.Ok? && described.value != [] && DumpTagsHash(described.value[0].tags) == action.tagHash
      && action.action == Some(DUMP)
    ensures action.action != Some(DUMP) ==>
      DescribedFor(action, instances, clusters).Ok? && DescribedFor(action, instances, clusters).value != []
      && DumpTagsHash(DescribedFor(action, instances, clusters).value[0].tags) == action.tagHash ==>
      r == Wake(Ok(None), [])
    ensures DescribedFor(action, instances, clusters).Err? ==> r == Wake(Err(DescribeFailed), [])
    ensures action.action == Some(DUMP) ==>
      DescribedFor(action, instances, clusters).Ok? && DescribedFor(action, instances, clusters).value != [] ==>
      DumpTagsHash(DescribedFor(action, instances, clusters).value[0].tags) == action.tagHash ==>
      NextDump(DescribedFor(action, instances, clusters).value[0], env.now, env.nextFire).Err? ==>
      r == Wake(Err(BadSchedule(NextDump(DescribedFor(action, instances, clusters).value[0], env.now, env.nextFire).error)), [])
  {
    match DescribedFor(action, instances, clusters)
    case Err(e) => Wake(Err(e), [])
    case Ok(resources) =>
      if resources == [] then Wake(Ok(Some(ActionResult(action, false, NO_LONGER_EXISTS, None))), [])
      else
        var resource := resources[0];
        if DumpTagsHash(resource.tags) != action.tagHash then
          Wake(Ok(Some(ActionResult(action, false, TAGS_DO_NOT_MATCH, Some(resource)))), [])
        else if action.action == Some(DUMP) then
          match NextDump(resource, env.now, env.nextFire)
          case Err(e) => Wake(Err(BadSchedule(e)), [])
          case Ok(next) =>
            var started := StartExecution(stateMachineArn, resource, next, env);
            if started.result.Err? then started
            else Wake(Ok(Some(DumpVerdict(action, resource))), started.sent)
        else Wake(Ok(None), [])
  }

  /**
   * A changed fingerprint is reported before anything is scheduled: the
   * answer names the resource and no StartExecution request is sent.
   */
  lemma MismatchSendsNothing(stateMachineArn: JsString, action: DumpAction, instances: Describe, clusters: Describe,
                             env: SchedulerEnv)
    requires DescribedFor(action, instances, clusters).Ok?
    requires var resources := DescribedFor(action, instances, clusters).value;
      resources != [] && DumpTagsHash(resources[0].tags) != action.tagHash
    ensures var r := ProcessStateAction(stateMachineArn, action, instances, clusters, env);
      r.sent == [] && r.result == Ok(Some(ActionResult(action, false, TAGS_DO_NOT_MATCH,
                                                         Some(DescribedFor(action, instances, clusters).value[0]))))
  {
  }

  /**
   * A dump of a resource whose tags match reschedules it: exactly when the
   * resource has a dump schedule, one request for its next dump is sent,
   * under a name of at most 80 code units.
   */
  lemma DumpReschedules(stateMachineArn: JsString, action: DumpAction, resource: RdsResource,
                        instances: Describe, clusters: Describe, env: SchedulerEnv)
    requires DescribedFor(action, instances, clusters).Ok?
    requires var resources := DescribedFor(action, instances, clusters).value;
      resources != [] && resources[0] == resource
    requires DumpTagsHash(resource.tags) == action.tagHash && action.action == Some(DUMP)
    requires NextDump(resource, env.now, env.nextFire).Ok?
    ensures var r := ProcessStateAction(stateMachineArn, action, instances, clusters, env);
      (r.sent != [] <==> Truthy(resource.tags.dumpSchedule))
      && (r.sent != [] ==>
            |r.sent| == 1 && Some(r.sent[0].input) == NextDump(resource, env.now, env.nextFire).value
            && |r.sent[0].name| <= EXECUTION_NAME_LIMIT)
      && (r.result.Ok? ==> r.result == Ok(Some(DumpVerdict(action, resource))))
      && (r.result.Err? <==> r.sent != [] && !env.accepts(r.sent[0]))
  {
  }

  /**
   * A wake rejects exactly when the describe call throws, or, for a dump of
   * a resource whose tags match, when its dump schedule cannot be read or
   * StartExecution refuses the request for the next dump.
   */
  lemma WakeRejects(stateMachineArn: JsString, action: DumpAction, instances: Describe, clusters: Describe,
                    env: SchedulerEnv)
    ensures var r := ProcessStateAction(stateMachineArn, action, instances, clusters, env);
      var described := DescribedFor(action, instances, clusters);
      r.result.Err? <==>
        described.Err?
        || (described.value != [] && DumpTagsHash(described.value[0].tags) == action.tagHash
            && action.action == Some(DUMP)
            && (NextDump(described.value[0], env.now, env.nextFire).Err?
                || (r.sent != [] && !env.accepts(r.sent[0]))))
  {
  }

  /**
   * The resources the describe calls build carry no `state`, so a dump is
   * never found stopped and never runs: the answer is at best "Instance is
   * not stopped".
   */
  lemma DescribedResourcesNeverRun(stateMachineArn: JsString, action: DumpAction, instances: Describe,
                                   clusters: Describe, env: SchedulerEnv)
    requires instances.Described? ==> forall i :: 0 <= i < |instances.resources| ==> instances.resources[i].state.None?
    requires clusters.Described? ==> forall i :: 0 <= i < |clusters.resources| ==> clusters.resources[i].state.None?
    ensures var r := ProcessStateAction(stateMachineArn, action, instances, clusters, env);
      !(r.result.Ok? && r.result.value.Some? && r.result.value.value.execute)
  {
  }

  /** The action scheduled for a resource carries the fingerprint of the tags it was made from. */
  lemma NextDumpCarriesFingerprint(resource: RdsResource, now: int, nextFire: NextFire, action: DumpAction)
    requires NextDump(resource, now, nextFire) == Ok(Some(action))
    ensures action.tagHash == DumpTagsHash(resource.tags)
    ensures action.resourceType == resource.resourceType && action.resourceId == resource.id
    ensures action.action == Some(DUMP) || action.when == []
  {
    assert ScheduledDumps(resource, now, nextFire) == Ok([action]);
  }

  /**
   * The action scheduled for a resource passes the fingerprint check of a
   * later wake-up as long as the resource is still there with unchanged
   * tags.
   */
  lemma ScheduledActionMatchesUnchangedTags(resource: RdsResource, now: int, nextFire: NextFire, action: DumpAction,
                                            stateMachineArn: JsString, instances: Describe, clusters: Describe,
                                            env: SchedulerEnv, described: RdsResource)
    requires NextDump(resource, now, nextFire) == Ok(Some(action))
    requires DescribedFor(action, instances, clusters).Ok?
    requires DescribedFor(action, instances, clusters).value != []
    requires DescribedFor(action, instances, clusters).value[0] == described && described.tags == resource.tags
    ensures ProcessStateAction(stateMachineArn, action, instances, clusters, env).result
      != Ok(Some(ActionResult(action, false, TAGS_DO_NOT_MATCH, Some(described))))
    ensures ProcessStateAction(stateMachineArn, action, instances, clusters, env).result
      != Ok(Some(ActionResult(action, false, NO_LONGER_EXISTS, None)))
  {
    NextDumpCarriesFingerprint(resource, now, nextFire, action);
  }

  // ---------------------------------------------------------------------
  // handler

  /** The execution input: a tag-change event (it has `detail`), or an action. */
  datatype SchedulerInput = TagChange | ActionInput(action: DumpAction)

  predicate IsRdsType(resourceType: JsString) {
    resourceType == RDS_INSTANCE || resourceType == RDS_CLUSTER
  }

  /**
   * `handler(event)`: a tag-change event goes to `handleCloudWatchEvent`,
   * which does nothing; an action of an RDS type to `processStateAction`;
   * any other resource type is rejected.
   */
  function Handler(stateMachineArn: JsString, input: SchedulerInput, instances: Describe, clusters: Describe,
                   env: SchedulerEnv): (r: Wake)
    ensures input.TagChange? ==> r == Wake(Ok(None), [])
    ensures input.ActionInput? && !IsRdsType(input.action.resourceType) ==>
      r == Wake(Err(UnsupportedResourceType(input.action.resourceType)), [])
    ensures input.ActionInput? && IsRdsType(input.action.resourceType) ==>
      r == ProcessStateAction(stateMachineArn, input.action, instances, clusters, env)
  {
    match input
    case TagChange => Wake(Ok(None), [])
    case ActionInput(action) =>
      if IsRdsType(action.resourceType) then ProcessStateAction(stateMachineArn, action, instances, clusters, env)
      else Wake(Err(UnsupportedResourceType(action.resourceType)), [])
  }

  /** Only a dump action of an RDS type whose fingerprint matches ever leads to a StartExecution request. */
  lemma HandlerSendsOnlyForMatchingDumps(stateMachineArn: JsString, input: SchedulerInput, instances: Describe,
                                         clusters: Describe, env: SchedulerEnv)
    ensures var r := Handler(stateMachineArn, input, instances, clusters, env);
      r.sent != [] ==>
        input.ActionInput? && IsRdsType(input.action.resourceType) && input.action.action == Some(DUMP)
        && DescribedFor(input.action, instances, clusters).Ok?
        && DescribedFor(input.action, instances, clusters).value != []
        && DumpTagsHash(DescribedFor(input.action, instances, clusters).value[0].tags) == input.action.tagHash
  {
  }
}
