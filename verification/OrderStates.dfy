/** The order life-cycle: states, triggers and the frozen transition matrix. */
module OrderStates {
  import opened Wrappers

  datatype State =
    | READY | SUBMITTING | ACKNOWLEDGED | PARTIAL | FILLED | PROTECTED | MANAGED | CLOSED | RECONCILED
    | RECOVERY_REQUIRED | REJECTED | CANCELLED

  datatype Trigger =
    | SUBMIT_ORDER | VALIDATION_FAILED | RECONCILE_DIVERGENCE | CANCEL_REQUESTED | EXCHANGE_ACK | PARTIAL_FILL
    | FULL_FILL | EXCHANGE_REJECT | CANCEL_CONFIRMED | SUBMISSION_TIMEOUT | UNKNOWN_OUTCOME | FILL_TIMEOUT
    | PROTECTION_PLACED | PROTECTION_FAILED | POSITION_CLOSED | MANAGEMENT_ACTIVE | RECONCILE_MATCH
    | RESOLVED_ACK | RESOLVED_PARTIAL | RESOLVED_FILLED | RESOLVED_PROTECTED | RESOLVED_MANAGED | RESOLVED_CLOSED
    | RESOLVED_CANCELLED | RESOLVED_REJECTED

  /** The state a trigger leads to, where the matrix has an entry. */
  function Target(s: State, t: Trigger): (r: Option<State>) {
    match (s, t)
    case (READY, SUBMIT_ORDER) => Some(SUBMITTING)
    case (READY, VALIDATION_FAILED) => Some(REJECTED)
    case (READY, CANCEL_REQUESTED) => Some(CANCELLED)
    case (SUBMITTING, EXCHANGE_ACK) => Some(ACKNOWLEDGED)
    case (SUBMITTING, PARTIAL_FILL) => Some(PARTIAL)
    case (SUBMITTING, FULL_FILL) => Some(FILLED)
    case (SUBMITTING, EXCHANGE_REJECT) => Some(REJECTED)
    case (SUBMITTING, CANCEL_CONFIRMED) => Some(CANCELLED)
    case (SUBMITTING, SUBMISSION_TIMEOUT) => Some(RECOVERY_REQUIRED)
    case (SUBMITTING, UNKNOWN_OUTCOME) => Some(RECOVERY_REQUIRED)
    case (ACKNOWLEDGED, PARTIAL_FILL) => Some(PARTIAL)
    case (ACKNOWLEDGED, FULL_FILL) => Some(FILLED)
    case (ACKNOWLEDGED, CANCEL_CONFIRMED) => Some(CANCELLED)
    case (ACKNOWLEDGED, EXCHANGE_REJECT) => Some(REJECTED)
    case (ACKNOWLEDGED, FILL_TIMEOUT) => Some(RECOVERY_REQUIRED)
    case (ACKNOWLEDGED, UNKNOWN_OUTCOME) => Some(RECOVERY_REQUIRED)
    case (ACKNOWLEDGED, PROTECTION_PLACED) => Some(PROTECTED)
    case (PARTIAL, FULL_FILL) => Some(FILLED)
    case (PARTIAL, FILL_TIMEOUT) => Some(RECOVERY_REQUIRED)
    case (PARTIAL, CANCEL_CONFIRMED) => Some(CANCELLED)
    case (PARTIAL, UNKNOWN_OUTCOME) => Some(RECOVERY_REQUIRED)
    case (PARTIAL, PROTECTION_PLACED) => Some(PROTECTED)
    case (FILLED, PROTECTION_PLACED) => Some(PROTECTED)
    case (FILLED, PROTECTION_FAILED) => Some(RECOVERY_REQUIRED)
    case (FILLED, POSITION_CLOSED) => Some(CLOSED)
    case (FILLED, UNKNOWN_OUTCOME) => Some(RECOVERY_REQUIRED)
    case (PROTECTED, MANAGEMENT_ACTIVE) => Some(MANAGED)
    case (PROTECTED, POSITION_CLOSED) => Some(CLOSED)
    case (PROTECTED, PROTECTION_FAILED) => Some(RECOVERY_REQUIRED)
    case (MANAGED, POSITION_CLOSED) => Some(CLOSED)
    case (MANAGED, PROTECTION_FAILED) => Some(RECOVERY_REQUIRED)
    case (CLOSED, RECONCILE_MATCH) => Some(RECONCILED)
    case (RECOVERY_REQUIRED, RECONCILE_MATCH) => Some(RECONCILED)
    case (RECOVERY_REQUIRED, RESOLVED_ACK) => Some(ACKNOWLEDGED)
    case (RECOVERY_REQUIRED, RESOLVED_PARTIAL) => Some(PARTIAL)
    case (RECOVERY_REQUIRED, RESOLVED_FILLED) => Some(FILLED)
    case (RECOVERY_REQUIRED, RESOLVED_PROTECTED) => Some(PROTECTED)
    case (RECOVERY_REQUIRED, RESOLVED_MANAGED) => Some(MANAGED)
    case (RECOVERY_REQUIRED, RESOLVED_CLOSED) => Some(CLOSED)
    case (RECOVERY_REQUIRED, RESOLVED_CANCELLED) => Some(CANCELLED)
    case (RECOVERY_REQUIRED, RESOLVED_REJECTED) => Some(REJECTED)
    case (REJECTED, RECONCILE_MATCH) => Some(RECONCILED)
    case (CANCELLED, RECONCILE_MATCH) => Some(RECONCILED)
    case (_, RECONCILE_DIVERGENCE) =>
      if s == RECONCILED || s == REJECTED || s == CANCELLED then None else Some(RECOVERY_REQUIRED)
    case _ => None
  }

  /** The states' spelling in the ledger. */
  function Name(s: State): (n: string) {
    match s
    case READY => "READY" case SUBMITTING => "SUBMITTING" case ACKNOWLEDGED => "ACKNOWLEDGED"
    case PARTIAL => "PARTIAL" case FILLED => "FILLED" case PROTECTED => "PROTECTED" case MANAGED => "MANAGED"
    case CLOSED => "CLOSED" case RECONCILED => "RECONCILED" case RECOVERY_REQUIRED => "RECOVERY_REQUIRED"
    case REJECTED => "REJECTED" case CANCELLED => "CANCELLED"
  }

  lemma OnlyReconciledIsSpeltSo(s: State)
    ensures Name(s) == "RECONCILED" <==> s == RECONCILED
  {
    assert |Name(s)| == 10 ==> s == RECONCILED || Name(s)[0] == 'S';
  }

  /** No trigger leads back to READY, and none leads out of RECONCILED. */
  lemma EndsOfTheLine(s: State, t: Trigger)
    ensures Target(s, t) != Some(READY)
    ensures Target(RECONCILED, t) == None
  {}

  /** The one edge that leads back to where it starts. */
  lemma OnlyLoop(s: State, t: Trigger)
    ensures Target(s, t) == Some(s) <==> s == RECOVERY_REQUIRED && t == RECONCILE_DIVERGENCE
  {}

  /** The state a trigger names. */
  function Names(t: Trigger): (s: State) {
    match t
    case SUBMIT_ORDER => SUBMITTING
    case EXCHANGE_ACK | RESOLVED_ACK => ACKNOWLEDGED
    case PARTIAL_FILL | RESOLVED_PARTIAL => PARTIAL
    case FULL_FILL | RESOLVED_FILLED => FILLED
    case PROTECTION_PLACED | RESOLVED_PROTECTED => PROTECTED
    case MANAGEMENT_ACTIVE | RESOLVED_MANAGED => MANAGED
    case POSITION_CLOSED | RESOLVED_CLOSED => CLOSED
    case RECONCILE_MATCH => RECONCILED
    case VALIDATION_FAILED | EXCHANGE_REJECT | RESOLVED_REJECTED => REJECTED
    case CANCEL_REQUESTED | CANCEL_CONFIRMED | RESOLVED_CANCELLED => CANCELLED
    case SUBMISSION_TIMEOUT | UNKNOWN_OUTCOME | FILL_TIMEOUT | PROTECTION_FAILED | RECONCILE_DIVERGENCE => RECOVERY_REQUIRED
  }

  /** Where a trigger is heard. */
  function Hears(t: Trigger): (from: set<State>) {
    match t
    case SUBMIT_ORDER | VALIDATION_FAILED | CANCEL_REQUESTED => {READY}
    case EXCHANGE_ACK | SUBMISSION_TIMEOUT => {SUBMITTING}
    case PARTIAL_FILL | EXCHANGE_REJECT => {SUBMITTING, ACKNOWLEDGED}
    case FULL_FILL | CANCEL_CONFIRMED => {SUBMITTING, ACKNOWLEDGED, PARTIAL}
    case UNKNOWN_OUTCOME => {SUBMITTING, ACKNOWLEDGED, PARTIAL, FILLED}
    case FILL_TIMEOUT => {ACKNOWLEDGED, PARTIAL}
    case PROTECTION_PLACED => {ACKNOWLEDGED, PARTIAL, FILLED}
    case PROTECTION_FAILED => {FILLED, PROTECTED, MANAGED}
    case POSITION_CLOSED => {FILLED, PROTECTED, MANAGED}
    case MANAGEMENT_ACTIVE => {PROTECTED}
    case RECONCILE_MATCH => {CLOSED, RECOVERY_REQUIRED, REJECTED, CANCELLED}
    case RECONCILE_DIVERGENCE =>
      {READY, SUBMITTING, ACKNOWLEDGED, PARTIAL, FILLED, PROTECTED, MANAGED, CLOSED, RECOVERY_REQUIRED}
    case _ => {RECOVERY_REQUIRED}
  }

  /** The matrix read by its columns: a trigger leads to the one state it names, from
      wherever it is heard. */
  lemma TriggerNamesState(s: State, t: Trigger)
    ensures Target(s, t) == if s in Hears(t) then Some(Names(t)) else None
  {
    hide Names;
    TriggerTarget(s, t);
    TriggerSource(s, t);
  }

  lemma TriggerTarget(s: State, t: Trigger)
    ensures Target(s, t).Some? ==> Target(s, t).value == Names(t)
  {}

  lemma TriggerSource(s: State, t: Trigger)
    ensures Target(s, t).Some? <==> s in Hears(t)
  {}
}
