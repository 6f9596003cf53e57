/**
 * The event projector: a plain object of twelve string fields, filled from
 * a record according to the variant of its value, with a getter and a
 * setter per field.
 */
module ZeebeEvents {
  import opened Options
  import opened Decimal
  import opened Records

  /** A Java `String` field: `None` is null. */
  type JString = Option<string>

  /** The twelve fields, in declaration order. */
  datatype Event = Event(
    processDefinitionKey: JString,
    bpmnProcessId: JString,
    processInstanceKey: JString,
    elementId: JString,
    tenantId: JString,
    bpmnElementType: JString,
    variableName: JString,
    variableValue: JString,
    position: JString,
    intent: JString,
    valueType: JString,
    timestamp: JString)

  /** A fresh object: every field null. */
  const Unset: Event := Event(None, None, None, None, None, None, None, None, None, None, None, None)

  /** The eight fields that come from the record value. */
  predicate PayloadUnset(e: Event)
  {
    && e.processDefinitionKey.None? && e.bpmnProcessId.None? && e.processInstanceKey.None?
    && e.elementId.None? && e.tenantId.None? && e.bpmnElementType.None?
    && e.variableName.None? && e.variableValue.None?
  }

  /** No field is null. */
  predicate Complete(e: Event)
  {
    && e.processDefinitionKey.Some? && e.bpmnProcessId.Some? && e.processInstanceKey.Some?
    && e.elementId.Some? && e.tenantId.Some? && e.bpmnElementType.Some?
    && e.variableName.Some? && e.variableValue.Some?
    && e.position.Some? && e.intent.Some? && e.valueType.Some? && e.timestamp.Some?
  }

  /** A field holding the decimal rendering of `n`: canonical, and reading back as `n`. */
  predicate RendersLong(f: JString, n: Long)
  {
    f.Some? && Canonical(f.value) && ParseInt(f.value) == n
  }

  /** A field renders `n` exactly when it holds `String.valueOf(n)`. */
  lemma RendersLongExactly(f: JString, n: Long)
    ensures RendersLong(f, n) <==> f == Some(IntToString(n))
  {
    if RendersLong(f, n) {
      CanonicalIsRendering(f.value, n);
    }
  }

  /** The four fields that come from the record itself rather than its value. */
  predicate SameCommonFields(e1: Event, e2: Event)
  {
    e1.position == e2.position && e1.intent == e2.intent
    && e1.valueType == e2.valueType && e1.timestamp == e2.timestamp
  }

  /** `initFromVariableRecordValue`: no element, the variable's name and value. */
  function InitFromVariable(e: Event, v: VariableValue): (r: Event)
    ensures SameCommonFields(r, e)
    ensures r.elementId == Some("") && r.bpmnElementType == Some("")
    ensures r.variableName == Some(v.name) && r.variableValue == Some(v.value)
    ensures r.bpmnProcessId == Some(v.bpmnProcessId) && r.tenantId == Some(v.tenantId)
    ensures RendersLong(r.processDefinitionKey, v.processDefinitionKey)
    ensures RendersLong(r.processInstanceKey, v.processInstanceKey)
  {
    e.(processDefinitionKey := Some(IntToString(v.processDefinitionKey)),
       bpmnProcessId := Some(v.bpmnProcessId),
       processInstanceKey := Some(IntToString(v.processInstanceKey)),
       elementId := Some(""),
       tenantId := Some(v.tenantId),
       bpmnElementType := Some(""),
       variableName := Some(v.name),
       variableValue := Some(v.value))
  }

  /** `initFromProcessInstanceRecordValue`: the element, no variable. */
  function InitFromProcessInstance(e: Event, v: ProcessInstanceValue): (r: Event)
    ensures SameCommonFields(r, e)
    ensures r.variableName == Some("") && r.variableValue == Some("")
    ensures r.elementId == Some(v.elementId) && r.bpmnProcessId == Some(v.bpmnProcessId)
    ensures r.tenantId == Some(v.tenantId)
    ensures r.bpmnElementType == Some(if v.elementTypeName.Some? then v.elementTypeName.value else "")
    ensures RendersLong(r.processDefinitionKey, v.processDefinitionKey)
    ensures RendersLong(r.processInstanceKey, v.processInstanceKey)
  {
    e.(processDefinitionKey := Some(IntToString(v.processDefinitionKey)),
       bpmnProcessId := Some(v.bpmnProcessId),
       processInstanceKey := Some(IntToString(v.processInstanceKey)),
       elementId := Some(v.elementId),
       tenantId := Some(v.tenantId),
       bpmnElementType := Some(v.elementTypeName.GetOr("")),
       variableName := Some(""),
       variableValue := Some(""))
  }

  /**
   * The constructor `ZeebeEvent(record)`: the payload fields by the
   * variant of the value (left null for any other value, or a null one),
   * then the four common fields from the record, whatever the variant.
   */
  function Project(r: Record, instantText: Long -> string): (e: Event)
    ensures RendersLong(e.position, r.position)
    ensures e.intent == Some(r.intent.Name()) && e.valueType == Some(r.valueType.Name())
    ensures e.timestamp == Some(instantText(r.timestamp))
    ensures match r.value
      case Some(ProcessInstanceRecordValue(v)) =>
        && Complete(e)
        && e.variableName == Some("") && e.variableValue == Some("")
        && e.elementId == Some(v.elementId) && e.bpmnProcessId == Some(v.bpmnProcessId)
        && e.tenantId == Some(v.tenantId)
        && e.bpmnElementType == Some(if v.elementTypeName.Some? then v.elementTypeName.value else "")
        && RendersLong(e.processDefinitionKey, v.processDefinitionKey)
        && RendersLong(e.processInstanceKey, v.processInstanceKey)
      case Some(VariableRecordValue(v)) =>
        && Complete(e)
        && e.elementId == Some("") && e.bpmnElementType == Some("")
        && e.variableName == Some(v.name) && e.variableValue == Some(v.value)
        && e.bpmnProcessId == Some(v.bpmnProcessId) && e.tenantId == Some(v.tenantId)
        && RendersLong(e.processDefinitionKey, v.processDefinitionKey)
        && RendersLong(e.processInstanceKey, v.processInstanceKey)
      case _ => PayloadUnset(e)
  {
    var payload :=
      match r.value
      case Some(ProcessInstanceRecordValue(v)) => InitFromProcessInstance(Unset, v)
      case Some(VariableRecordValue(v)) => InitFromVariable(Unset, v)
      case _ => Unset;
    payload.(position := Some(IntToString(r.position)),
             intent := Some(r.intent.Name()),
             valueType := Some(r.valueType.Name()),
             timestamp := Some(instantText(r.timestamp)))
  }

  /**
   * The four common fields depend on the record alone, never on its
   * value: two records that differ only in their values (and JSON) give
   * the same position, intent, value type and timestamp.
   */
  lemma CommonFieldsIgnoreValue(r1: Record, r2: Record, instantText: Long -> string)
    requires r1.position == r2.position && r1.timestamp == r2.timestamp
    requires r1.intent == r2.intent && r1.valueType == r2.valueType
    ensures SameCommonFields(Project(r1, instantText), Project(r2, instantText))
  {
  }

  /** The position field differs between records with different positions. */
  lemma PositionIdentifiesRecord(r1: Record, r2: Record, instantText: Long -> string)
    requires Project(r1, instantText).position == Project(r2, instantText).position
    ensures r1.position == r2.position
  {
  }

  class ZeebeEvent {
    var processDefinitionKey: JString
    var bpmnProcessId: JString
    var processInstanceKey: JString
    var elementId: JString
    var tenantId: JString
    var bpmnElementType: JString
    var variableName: JString
    var variableValue: JString
    var position: JString
    var intent: JString
    var valueType: JString
    var timestamp: JString

    /** The object's fields as one value. */
    ghost function Fields(): Event
      reads this
    {
      Event(processDefinitionKey, bpmnProcessId, processInstanceKey, elementId,
            tenantId, bpmnElementType, variableName, variableValue,
            position, intent, valueType, timestamp)
    }

    constructor (r: Record, instantText: Long -> string)
      ensures Fields() == Project(r, instantText)
    {
      var e := Project(r, instantText);
      processDefinitionKey := e.processDefinitionKey;
      bpmnProcessId := e.bpmnProcessId;
      processInstanceKey := e.processInstanceKey;
      elementId := e.elementId;
      tenantId := e.tenantId;
      bpmnElementType := e.bpmnElementType;
      variableName := e.variableName;
      variableValue := e.variableValue;
      position := e.position;
      intent := e.intent;
      valueType := e.valueType;
      timestamp := e.timestamp;
    }

    method GetProcessDefinitionKey() returns (v: JString)
      ensures v == Fields().processDefinitionKey
    {
      v := processDefinitionKey;
    }

    /** Sets `processDefinitionKey` and no other field. */
    method SetProcessDefinitionKey(v: JString)
      modifies this
      ensures Fields() == old(Fields()).(processDefinitionKey := v)
    {
      processDefinitionKey := v;
    }

    method GetBpmnProcessId() returns (v: JString)
      ensures v == Fields().bpmnProcessId
    {
      v := bpmnProcessId;
    }

    /** Sets `bpmnProcessId` and no other field. */
    method SetBpmnProcessId(v: JString)
      modifies this
      ensures Fields() == old(Fields()).(bpmnProcessId := v)
    {
      bpmnProcessId := v;
    }

    method GetProcessInstanceKey() returns (v: JString)
      ensures v == Fields().processInstanceKey
    {
      v := processInstanceKey;
    }

    /** Sets `processInstanceKey` and no other field. */
    method SetProcessInstanceKey(v: JString)
      modifies this
      ensures Fields() == old(Fields()).(processInstanceKey := v)
    {
      processInstanceKey := v;
    }

    method GetElementId() returns (v: JString)
      ensures v == Fields().elementId
    {
      v := elementId;
    }

    /** Sets `elementId` and no other field. */
    method SetElementId(v: JString)
      modifies this
      ensures Fields() == old(Fields()).(elementId := v)
    {
      elementId := v;
    }

    method GetTenantId() returns (v: JString)
      ensures v == Fields().tenantId
    {
      v := tenantId;
    }

    /** Sets `tenantId` and no other field. */
    method SetTenantId(v: JString)
      modifies this
      ensures Fields() == old(Fields()).(tenantId := v)
    {
      tenantId := v;
    }

    method GetBpmnElementType() returns (v: JString)
      ensures v == Fields().bpmnElementType
    {
      v := bpmnElementType;
    }

    /** Sets `bpmnElementType` and no other field. */
    method SetBpmnElementType(v: JString)
      modifies this
      ensures Fields() == old(Fields()).(bpmnElementType := v)
    {
      bpmnElementType := v;
    }

    method GetVariableName() returns (v: JString)
      ensures v == Fields().variableName
    {
      v := variableName;
    }

    /** Sets `variableName` and no other field. */
    method SetVariableName(v: JString)
      modifies this
      ensures Fields() == old(Fields()).(variableName := v)
    {
      variableName := v;
    }

    method GetVariableValue() returns (v: JString)
      ensures v == Fields().variableValue
    {
      v := variableValue;
    }

    /** Sets `variableValue` and no other field. */
    method SetVariableValue(v: JString)
      modifies this
      ensures Fields() == old(Fields()).(variableValue := v)
    {
      variableValue := v;
    }

    method GetPosition() returns (v: JString)
      ensures v == Fields().position
    {
      v := position;
    }

    /** Sets `position` and no other field. */
    method SetPosition(v: JString)
      modifies this
      ensures Fields() == old(Fields()).(position := v)
    {
      position := v;
    }

    method GetIntent() returns (v: JString)
      ensures v == Fields().intent
    {
      v := intent;
    }

    /** Sets `intent` and no other field. */
    method SetIntent(v: JString)
      modifies this
      ensures Fields() == old(Fields()).(intent := v)
    {
      intent := v;
    }

    method GetValueType() returns (v: JString)
      ensures v == Fields().valueType
    {
      v := valueType;
    }

    /** Sets `valueType` and no other field. */
    method SetValueType(v: JString)
      modifies this
      ensures Fields() == old(Fields()).(valueType := v)
    {
      valueType := v;
    }

    method GetTimestamp() returns (v: JString)
      ensures v == Fields().timestamp
    {
      v := timestamp;
    }

    /** Sets `timestamp` and no other field. */
    method SetTimestamp(v: JString)
      modifies this
      ensures Fields() == old(Fields()).(timestamp := v)
    {
      timestamp := v;
    }
  }
}
