/** The task message on a stream: how Fulfillment writes it and how the dispatcher reads and re-sends it. */
module Message {
  import opened Common
  import opened Text
  import Fulfillment

  // The field names of an entry; any field the services do not know is carried along.
  datatype Key =
    | TaskKey | OrderKey | KitchenKey | StationTypeKey | OperationKey | MenuItemKey | MenuItemNameKey
    | EstimatedDurationKey | PickupDeadlineKey | AttemptKey | CreatedAtKey | RecipeStepOrderKey
    | ItemUnitIndexKey | CorrelationKey | OtherKey(name: string)

  type Values = map<Key, string>

  datatype TaskMessage = TaskMessage(
    taskID: string, orderID: string, kitchenID: string, stationType: string, operation: string,
    menuItemID: string, menuItemName: string, estimatedDurationSeconds: int, pickupDeadline: string,
    attempt: int, correlationID: string, recipeStepOrder: string, itemUnitIndex: string,
    raw: Values)

  datatype ParseError = Missing(field: Key) | BadDuration | BadAttempt
  datatype Parsed = Message(value: TaskMessage) | Invalid(error: ParseError)

  function Field(values: Values, key: Key): string {
    TrimSpace(if key in values then values[key] else "")
  }

  /** The first required text field that is absent or blank. */
  function MissingField(values: Values): Option<Key> {
    if Field(values, TaskKey) == "" then Some(TaskKey)
    else if Field(values, OrderKey) == "" then Some(OrderKey)
    else if Field(values, KitchenKey) == "" then Some(KitchenKey)
    else if Field(values, StationTypeKey) == "" then Some(StationTypeKey)
    else if Field(values, OperationKey) == "" then Some(OperationKey)
    else if Field(values, MenuItemKey) == "" then Some(MenuItemKey)
    else None
  }

  function PositiveNumber(text: string): Option<int> {
    var n := Atoi(text);
    if n.Some? && n.value > 0 then n else None
  }

  /** The attempt of a message: one when absent or blank, nothing when not a positive integer. */
  function AttemptOf(values: Values): Option<int> {
    var text := Field(values, AttemptKey);
    if text == "" then Some(1) else PositiveNumber(text)
  }

  function ParseTaskMessage(values: Values): Parsed {
    var missing := MissingField(values);
    var duration := PositiveNumber(Field(values, EstimatedDurationKey));
    var attempt := AttemptOf(values);
    if missing.Some? then Invalid(Missing(missing.value))
    else if duration.None? then Invalid(BadDuration)
    else if attempt.None? then Invalid(BadAttempt)
    else Message(MessageOf(values, duration.value, attempt.value))
  }

  function MessageOf(values: Values, duration: int, attempt: int): TaskMessage {
    TaskMessage(
      Field(values, TaskKey), Field(values, OrderKey), Field(values, KitchenKey), Field(values, StationTypeKey),
      Field(values, OperationKey), Field(values, MenuItemKey), Field(values, MenuItemNameKey), duration,
      Field(values, PickupDeadlineKey), attempt, Field(values, CorrelationKey), Field(values, RecipeStepOrderKey),
      Field(values, ItemUnitIndexKey), values)
  }

  const REQUIRED: seq<Key> := [TaskKey, OrderKey, KitchenKey, StationTypeKey, OperationKey, MenuItemKey]

  /** The i-th required text is blank, and it is the first. */
  predicate FirstBlank(values: Values, i: nat) {
    i < |REQUIRED| && Field(values, REQUIRED[i]) == "" && forall j | 0 <= j < i :: Field(values, REQUIRED[j]) != ""
  }

  predicate NoneBlank(values: Values) { forall key | key in REQUIRED :: Field(values, key) != "" }

  /** The text is a positive 64-bit number. */
  predicate IsPositive(text: string) { Atoi(text).Some? && Atoi(text).value > 0 }

  /** Parsing fails on the first blank required text, then on a duration and then on an attempt that is
      not a positive number; an absent or blank attempt is the first. What is read is the trimmed text. */
  lemma ParsedExactly(values: Values)
    ensures var parsed := ParseTaskMessage(values);
            var duration, attempt := Field(values, EstimatedDurationKey), Field(values, AttemptKey);
            && (forall i: nat | i < |REQUIRED| ::
                  parsed == Invalid(Missing(REQUIRED[i])) <==> FirstBlank(values, i))
            && (parsed == Invalid(BadDuration) <==> NoneBlank(values) && !IsPositive(duration))
            && (parsed == Invalid(BadAttempt) <==>
                  NoneBlank(values) && IsPositive(duration) && attempt != "" && !IsPositive(attempt))
            && (parsed.Message? <==>
                  NoneBlank(values) && IsPositive(duration) && (attempt == "" || IsPositive(attempt)))
    ensures ParseTaskMessage(values).Message? ==>
              var m := ParseTaskMessage(values).value;
              && m.taskID == Field(values, TaskKey) && m.orderID == Field(values, OrderKey)
              && m.kitchenID == Field(values, KitchenKey) && m.stationType == Field(values, StationTypeKey)
              && m.operation == Field(values, OperationKey) && m.menuItemID == Field(values, MenuItemKey)
              && m.menuItemName == Field(values, MenuItemNameKey)
              && m.pickupDeadline == Field(values, PickupDeadlineKey)
              && m.correlationID == Field(values, CorrelationKey)
              && m.recipeStepOrder == Field(values, RecipeStepOrderKey)
              && m.itemUnitIndex == Field(values, ItemUnitIndexKey)
              && m.raw == values
              && Some(m.estimatedDurationSeconds) == Atoi(Field(values, EstimatedDurationKey))
              && (if Field(values, AttemptKey) == "" then m.attempt == 1
                  else Some(m.attempt) == Atoi(Field(values, AttemptKey)))
  {
    hide Field, Atoi;
    assert REQUIRED[0] == TaskKey && REQUIRED[1] == OrderKey && REQUIRED[2] == KitchenKey;
    assert REQUIRED[3] == StationTypeKey && REQUIRED[4] == OperationKey && REQUIRED[5] == MenuItemKey;
  }

  lemma AttemptIsPositive(values: Values)
    requires ParseTaskMessage(values).Message?
    ensures 1 <= ParseTaskMessage(values).value.attempt <= MAX_INT64
  {
    hide MissingField, Field;
  }

  function ValuesWithAttempt(m: TaskMessage, attempt: int): Values {
    m.raw[AttemptKey := Itoa(attempt)]
  }

  /** Re-sending a message with another attempt and parsing it again changes the attempt and nothing else. */
  lemma RetryRoundTrip(values: Values, attempt: int)
    requires ParseTaskMessage(values).Message? && 0 < attempt <= MAX_INT64
    ensures var m := ParseTaskMessage(values).value;
            var again := ValuesWithAttempt(m, attempt);
            ParseTaskMessage(again) == Message(m.(attempt := attempt, raw := again))
  {
    var again := ValuesWithAttempt(ParseTaskMessage(values).value, attempt);
    PrintedNumber(attempt);
    forall key | key != AttemptKey ensures Field(again, key) == Field(values, key) {}
    assert AttemptOf(again) == Some(attempt);
    assert MissingField(again) == MissingField(values);
  }

  /** Re-sending carries every field along, also those no service knows, and rewrites the attempt alone. */
  lemma RetryKeepsFields(m: TaskMessage, attempt: int)
    ensures var again := ValuesWithAttempt(m, attempt);
            && again.Keys == m.raw.Keys + {AttemptKey} && again[AttemptKey] == Itoa(attempt)
            && forall key | key in m.raw && key != AttemptKey :: again[key] == m.raw[key]
  {
  }

  /** What a retry puts back on the stream for values it has parsed. */
  function Resent(values: Values): Values {
    var m := ParseTaskMessage(values);
    if m.Message? then ValuesWithAttempt(m.value, m.value.attempt + 1) else values
  }

  /** The values of one message on the stream, each put there by a retry of the one before. */
  ghost predicate RetryChain(chain: seq<Values>) {
    forall i | 0 < i < |chain| :: chain[i] == Resent(chain[i - 1])
  }

  /** The values read as the message m, but on another attempt. */
  ghost predicate ReadsAs(values: Values, m: TaskMessage, attempt: int) {
    ParseTaskMessage(values) == Message(m.(attempt := attempt, raw := values))
  }

  lemma ResentReadsAs(values: Values, m: TaskMessage, attempt: int)
    requires ReadsAs(values, m, attempt) && 0 < attempt < MAX_INT64
    ensures ReadsAs(Resent(values), m, attempt + 1)
  {
    hide MissingField, AttemptOf, MessageOf, PositiveNumber, Itoa;
    RetryRoundTrip(values, attempt + 1);
  }

  /** However many times a message is retried, every reader sees the original with its own attempt. */
  lemma {:induction false} RetriesRoundTrip(chain: seq<Values>, m: TaskMessage, attempt: int, n: nat)
    requires RetryChain(chain) && n < |chain|
    requires ReadsAs(chain[0], m, attempt) && 0 < attempt && attempt + n <= MAX_INT64
    ensures ReadsAs(chain[n], m, attempt + n)
  {
    hide ReadsAs, Resent;
    if n > 0 {
      RetriesRoundTrip(chain, m, attempt, n - 1);
      ResentReadsAs(chain[n - 1], m, attempt + n - 1);
    }
  }

  // ----- what Fulfillment writes -----

  datatype Publication = Publication(
    id: TaskId, task: Fulfillment.Task, kitchen: KitchenId, menuItem: string, menuItemName: Option<string>,
    pickupDeadline: string, createdAt: string, correlationID: Option<string>)

  function BuildRedisTaskMessage(p: Publication): Values {
    var fields := map[
      TaskKey := p.id,
      OrderKey := p.task.order,
      KitchenKey := p.kitchen,
      StationTypeKey := p.task.stationType,
      OperationKey := p.task.operation,
      MenuItemKey := p.menuItem,
      MenuItemNameKey := TextOf(p.menuItemName),
      EstimatedDurationKey := Itoa(p.task.estimated),
      PickupDeadlineKey := p.pickupDeadline,
      AttemptKey := Itoa(1),
      CreatedAtKey := p.createdAt,
      RecipeStepOrderKey := Itoa(p.task.stepOrder),
      ItemUnitIndexKey := Itoa(p.task.unit)
    ];
    if TextOf(p.correlationID) != "" then fields[CorrelationKey := TextOf(p.correlationID)] else fields
  }

  predicate Required(s: string) { s != "" && Trimmed(s) }

  function TextOf(s: Option<string>): string { if s.Some? then s.value else "" }

  /** The message a reader should see. */
  function Intended(p: Publication): TaskMessage {
    TaskMessage(p.id, p.task.order, p.kitchen, p.task.stationType, p.task.operation, p.menuItem, TextOf(p.menuItemName),
                p.task.estimated, p.pickupDeadline, 1, TextOf(p.correlationID), Itoa(p.task.stepOrder),
                Itoa(p.task.unit),
                BuildRedisTaskMessage(p))
  }

  predicate RequiredTextOk(p: Publication) {
    && Required(p.id) && Required(p.task.order) && Required(p.kitchen) && Required(p.task.stationType)
    && Required(p.task.operation) && Required(p.menuItem)
  }

  predicate OptionalTextOk(p: Publication) {
    Trimmed(TextOf(p.menuItemName)) && Trimmed(p.pickupDeadline) && Trimmed(TextOf(p.correlationID))
  }

  /** The parser recovers every field the publisher wrote exactly when none of them needs
      trimming, the required ones are not empty, and the duration is a positive 64-bit number. */
  lemma PublishedMessageIsRead(p: Publication)
    ensures ParseTaskMessage(BuildRedisTaskMessage(p)) == Message(Intended(p))
            <==> RequiredTextOk(p) && OptionalTextOk(p) && 0 < p.task.estimated <= MAX_INT64
  {
    var written := BuildRedisTaskMessage(p);
    WrittenText(p);
    WrittenOptionalText(p);
    WrittenNumbers(p);
    assert MissingField(written).None? <==>
      Field(written, TaskKey) != "" && Field(written, OrderKey) != "" && Field(written, KitchenKey) != ""
      && Field(written, StationTypeKey) != "" && Field(written, OperationKey) != ""
      && Field(written, MenuItemKey) != "";
  }

  lemma TrimmedField(values: Values, key: Key, text: string)
    requires (if key in values then values[key] else "") == text
    ensures Field(values, key) == text <==> Trimmed(text)
  {
    TrimSpaceFacts(text);
  }

  lemma WrittenText(p: Publication)
    ensures var w := BuildRedisTaskMessage(p);
            && (Field(w, TaskKey) == p.id <==> Trimmed(p.id))
            && (Field(w, OrderKey) == p.task.order <==> Trimmed(p.task.order))
            && (Field(w, KitchenKey) == p.kitchen <==> Trimmed(p.kitchen))
            && (Field(w, StationTypeKey) == p.task.stationType <==> Trimmed(p.task.stationType))
            && (Field(w, OperationKey) == p.task.operation <==> Trimmed(p.task.operation))
            && (Field(w, MenuItemKey) == p.menuItem <==> Trimmed(p.menuItem))
  {
    hide Field, Itoa, Trimmed, TextOf;
    var w := BuildRedisTaskMessage(p);
    TrimmedField(w, TaskKey, p.id);
    TrimmedField(w, OrderKey, p.task.order);
    TrimmedField(w, KitchenKey, p.kitchen);
    TrimmedField(w, StationTypeKey, p.task.stationType);
    TrimmedField(w, OperationKey, p.task.operation);
    TrimmedField(w, MenuItemKey, p.menuItem);
  }

  lemma WrittenOptionalText(p: Publication)
    ensures var w := BuildRedisTaskMessage(p);
            && (Field(w, MenuItemNameKey) == TextOf(p.menuItemName) <==> Trimmed(TextOf(p.menuItemName)))
            && (Field(w, PickupDeadlineKey) == p.pickupDeadline <==> Trimmed(p.pickupDeadline))
            && (Field(w, CorrelationKey) == TextOf(p.correlationID) <==> Trimmed(TextOf(p.correlationID)))
  {
    hide Field, Itoa, Trimmed;
    var w := BuildRedisTaskMessage(p);
    TrimmedField(w, MenuItemNameKey, TextOf(p.menuItemName));
    TrimmedField(w, PickupDeadlineKey, p.pickupDeadline);
    TrimmedField(w, CorrelationKey, TextOf(p.correlationID));
  }

  lemma NumberField(values: Values, key: Key, n: int)
    requires key in values && values[key] == Itoa(n)
    ensures Field(values, key) == Itoa(n)
    ensures PositiveNumber(Field(values, key)) == if 0 < n <= MAX_INT64 then Some(n) else None
    ensures Field(values, key) != ""
  {
    PrintedNumber(n);
  }

  predicate Holds(values: Values, key: Key, text: string) { key in values && values[key] == text }

  lemma NumbersWritten(p: Publication)
    ensures var w := BuildRedisTaskMessage(p);
            && Holds(w, RecipeStepOrderKey, Itoa(p.task.stepOrder)) && Holds(w, ItemUnitIndexKey, Itoa(p.task.unit))
            && Holds(w, EstimatedDurationKey, Itoa(p.task.estimated)) && Holds(w, AttemptKey, Itoa(1))
  {
    hide Itoa, TextOf;
  }

  /** The fields of a published message, and that there are no others. */
  lemma WrittenExactly(p: Publication)
    ensures var w := BuildRedisTaskMessage(p);
            && w.Keys == {TaskKey, OrderKey, KitchenKey, StationTypeKey, OperationKey, MenuItemKey, MenuItemNameKey,
                          EstimatedDurationKey, PickupDeadlineKey, AttemptKey, CreatedAtKey, RecipeStepOrderKey,
                          ItemUnitIndexKey} + (if p.correlationID in {None, Some("")} then {} else {CorrelationKey})
            && Holds(w, CreatedAtKey, p.createdAt) && Holds(w, AttemptKey, "1") && Holds(w, TaskKey, p.id)
            && Holds(w, OrderKey, p.task.order) && Holds(w, KitchenKey, p.kitchen)
            && Holds(w, StationTypeKey, p.task.stationType) && Holds(w, OperationKey, p.task.operation)
            && Holds(w, MenuItemKey, p.menuItem) && Holds(w, PickupDeadlineKey, p.pickupDeadline)
  {
    hide Itoa;
    OneIsPrinted();
    NumbersWritten(p);
  }

  lemma OneIsPrinted()
    ensures Itoa(1) == "1"
  {
  }

  lemma WrittenNumbers(p: Publication)
    ensures var w := BuildRedisTaskMessage(p);
            && Field(w, RecipeStepOrderKey) == Itoa(p.task.stepOrder)
            && Field(w, ItemUnitIndexKey) == Itoa(p.task.unit)
            && AttemptOf(w) == Some(1)
            && PositiveNumber(Field(w, EstimatedDurationKey))
                 == if 0 < p.task.estimated <= MAX_INT64 then Some(p.task.estimated) else None
  {
    hide BuildRedisTaskMessage, Itoa, Field, PositiveNumber;
    var w := BuildRedisTaskMessage(p);
    NumbersWritten(p);
    NumberField(w, RecipeStepOrderKey, p.task.stepOrder);
    NumberField(w, ItemUnitIndexKey, p.task.unit);
    NumberField(w, EstimatedDurationKey, p.task.estimated);
    NumberField(w, AttemptKey, 1);
  }

  lemma PrintedNumber(n: int)
    ensures TrimSpace(Itoa(n)) == Itoa(n) != ""
    ensures Atoi(Itoa(n)) == if MIN_INT64 <= n <= MAX_INT64 then Some(n) else None
  {
    ItoaRoundTrip(n);
    TrimSpaceFacts(Itoa(n));
  }

  // ----- stream names -----

  function StreamName(kitchen: KitchenId, stationType: string): string {
    "stream:kitchen:" + kitchen + ":station:" + stationType
  }

  const DLQ_SUFFIX := ":dlq"

  function DLQStream(kitchen: KitchenId, stationType: string): string { StreamName(kitchen, stationType) + DLQ_SUFFIX }

  predicate IsDLQStream(stream: string) {
    |stream| >= |DLQ_SUFFIX| && stream[|stream| - |DLQ_SUFFIX|..] == DLQ_SUFFIX
  }

  /** No worker ever reads a dead-letter stream, and the task stream of a kitchen is read exactly when
      its station type neither is the dead-letter suffix without its colon nor ends in the suffix. */
  lemma DeadLettersAreNotRead(stream: string, kitchen: KitchenId, stationType: string)
    ensures !Dispatchable(stream + DLQ_SUFFIX) && !Dispatchable(DLQStream(kitchen, stationType))
    ensures Dispatchable(StreamName(kitchen, stationType)) <==> stationType != "dlq" && !IsDLQStream(stationType)
  {
    hide TrimSpace;
    NotBlank(StreamName(kitchen, stationType));
    EndsInSuffix("stream:kitchen:" + kitchen + ":station", stationType);
    assert StreamName(kitchen, stationType) == "stream:kitchen:" + kitchen + ":station" + ":" + stationType;
  }

  lemma EndsInSuffix(prefix: string, text: string)
    ensures IsDLQStream(prefix + ":" + text) <==> text == "dlq" || IsDLQStream(text)
  {
    var name := prefix + ":" + text;
    var n, m := |name|, |text|;
    assert name[n - m..] == text;
    if m >= 4 {
      assert name[n - 4..] == text[m - 4..];
    } else if m == 3 {
      assert name[n - 4..] == ":" + text;
      assert text == "dlq" <==> name[n - 4..] == DLQ_SUFFIX;
    } else {
      assert name[n - m - 1] == ':' != DLQ_SUFFIX[3 - m];
      assert n >= 4 ==> name[n - 4..][3 - m] == name[n - m - 1];
    }
  }

  predicate Dispatchable(stream: string) { TrimSpace(stream) != "" && !IsDLQStream(stream) }

  /** Keeps the first occurrence of every stream that is neither blank nor a dead-letter stream, in order. */
  method FilterDispatchStreams(streams: seq<string>) returns (filtered: seq<string>)
    ensures forall s :: s in filtered <==> s in streams && Dispatchable(s)
    ensures forall i, j | 0 <= i < j < |filtered| :: filtered[i] != filtered[j]
    ensures forall i, j | 0 <= i < j < |filtered| :: FirstIndex(streams, filtered[i]) < FirstIndex(streams, filtered[j])
  {
    filtered := [];
    var seen: set<string> := {};
    for k := 0 to |streams|
      invariant forall s :: s in seen <==> s in filtered
      invariant forall s :: s in filtered <==> s in streams[..k] && Dispatchable(s)
      invariant forall i, j | 0 <= i < j < |filtered| :: filtered[i] != filtered[j]
      invariant forall i | 0 <= i < |filtered| :: FirstIndex(streams, filtered[i]) < k
      invariant forall i, j | 0 <= i < j < |filtered| ::
                FirstIndex(streams, filtered[i]) < FirstIndex(streams, filtered[j])
    {
      var stream := streams[k];
      if TrimSpace(stream) == "" || IsDLQStream(stream) {
        continue;
      }
      if stream in seen {
        continue;
      }
      FirstIndexFacts(streams, stream, k);
      seen := seen + {stream};
      filtered := filtered + [stream];
    }
    assert streams[..|streams|] == streams;
  }

  function FirstIndex(streams: seq<string>, s: string): nat {
    if streams == [] || streams[0] == s then 0 else 1 + FirstIndex(streams[1..], s)
  }

  lemma {:induction false} FirstIndexFacts(streams: seq<string>, s: string, k: nat)
    requires k < |streams| && streams[k] == s && s !in streams[..k]
    ensures FirstIndex(streams, s) == k
  {
    if k > 0 {
      assert streams[0] in streams[..k];
      assert forall x | x in streams[1..][..k - 1] :: x in streams[..k];
      FirstIndexFacts(streams[1..], s, k - 1);
    }
  }
}
