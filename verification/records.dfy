/**
 * The engine records the exporter receives, reduced to what it reads:
 * position, key, timestamp, intent, value type, the decoded value and the
 * record's JSON text.
 */
module Records {
  import opened Options

  /** A Java `long`. */
  type Long = x: int | -0x8000_0000_0000_0000 <= x < 0x8000_0000_0000_0000

  /** The process-instance intents of the engine's protocol. */
  datatype ProcessInstanceIntent =
    | ActivateElement
    | CompleteElement
    | TerminateElement
    | ElementActivating
    | ElementActivated
    | ElementCompleting
    | ElementCompleted
    | ElementTerminating
    | ElementTerminated
    | SequenceFlowTaken
  {
    /** The enum constant's `name()`. */
    function Name(): string
    {
      match this
      case ActivateElement => "ACTIVATE_ELEMENT"
      case CompleteElement => "COMPLETE_ELEMENT"
      case TerminateElement => "TERMINATE_ELEMENT"
      case ElementActivating => "ELEMENT_ACTIVATING"
      case ElementActivated => "ELEMENT_ACTIVATED"
      case ElementCompleting => "ELEMENT_COMPLETING"
      case ElementCompleted => "ELEMENT_COMPLETED"
      case ElementTerminating => "ELEMENT_TERMINATING"
      case ElementTerminated => "ELEMENT_TERMINATED"
      case SequenceFlowTaken => "SEQUENCE_FLOW_TAKEN"
    }
  }

  /**
   * A record's intent: a process-instance intent, or a constant of another
   * intent enum (variable, job, ...), known here only by its name. Intents
   * of different enums are never equal, whatever their names.
   */
  datatype Intent =
    | ProcessInstance(pi: ProcessInstanceIntent)
    | OtherIntent(name: string)
  {
    function Name(): string
    {
      match this
      case ProcessInstance(pi) => pi.Name()
      case OtherIntent(n) => n
    }
  }

  datatype ValueType =
    | ProcessInstanceType
    | VariableType
    | OtherValueType(name: string)
  {
    function Name(): string
    {
      match this
      case ProcessInstanceType => "PROCESS_INSTANCE"
      case VariableType => "VARIABLE"
      case OtherValueType(n) => n
    }
  }

  /** The fields of a process-instance record value that are projected. */
  datatype ProcessInstanceValue = ProcessInstanceValue(
    bpmnProcessId: string,
    processDefinitionKey: Long,
    processInstanceKey: Long,
    elementId: string,
    tenantId: string,
    elementTypeName: Option<string>)

  /** The fields of a variable record value that are projected. */
  datatype VariableValue = VariableValue(
    name: string,
    value: string,
    processDefinitionKey: Long,
    processInstanceKey: Long,
    bpmnProcessId: string,
    tenantId: string)

  /** A record value: one of the two projected variants, or any other kind. */
  datatype Value =
    | ProcessInstanceRecordValue(pi: ProcessInstanceValue)
    | VariableRecordValue(v: VariableValue)
    | OtherRecordValue

  /**
   * A record. `value` is `None` when `getValue()` is null; `json` is the
   * text `toJson()` returns, `None` when that call throws.
   */
  datatype Record = Record(
    position: Long,
    key: Long,
    timestamp: Long,
    intent: Intent,
    valueType: ValueType,
    value: Option<Value>,
    json: Option<string>)
}
