/** The messages that CloudHub delivers, as far as the cloud and the edge look at them. */
module Messages {
  import opened Common

  type Uid = string

  datatype Operation = Insert | Update | Patch | Delete | Response | Query | OtherOperation
  datatype Group = ResourceGroup | OtherGroup

  datatype Source =
    | Edged | EdgeController | DynamicController | DeviceController | PolicyController | MetaManagerModule | OtherSource

  /** Remote stands for the types that are queried in the cloud; leases are too. */
  datatype ResType = Pod | Event | Lease | Remote | OtherType

  /** What meta.Accessor reads from the content of a message, when it can. */
  datatype Meta = Meta(uid: Uid, deleting: bool)

  /** parent is the request of the edge that the message answers. */
  datatype Message = Message(id: nat, group: Group, op: Operation, source: Source, resType: ResType,
                             version: string, meta: Option<Meta>, parent: Option<nat>)

  /** The meta manager writes a message that answers no request to its database. */
  predicate HandledDirectly(m: Message) {
    match m.op
    case Insert => !m.resType.Event? && !m.source.Edged?
    case Update => !m.resType.Event? && !(m.source.Edged? && m.resType.Lease?)
    case Patch => !m.resType.Event?
    case Response => true
    case Delete => !(m.resType.Pod? && m.source.Edged?)
    case _ => false
  }

  /** And acknowledges it to the cloud. */
  predicate AcknowledgedDirectly(m: Message) {
    match m.op
    case Insert => !m.resType.Event? && !m.source.Edged?
    case Update => !m.resType.Event? && (m.source.EdgeController? || m.source.DynamicController? ||
                                         m.source.DeviceController? || m.source.PolicyController?)
    case Delete => !(m.resType.Pod? && m.source.Edged?)
    case _ => false
  }

  /** Answers are handled, and acknowledged, by the request that waits for them. */
  predicate Handles(m: Message) {
    m.parent.Some? || HandledDirectly(m)
  }

  predicate Acknowledges(m: Message) {
    m.parent.Some? || AcknowledgedDirectly(m)
  }

  lemma AcknowledgedIsHandled(m: Message)
    ensures Acknowledges(m) ==> Handles(m)
  {
  }

  /** A message the edge takes and acknowledges as often as it comes. */
  predicate Plain(m: Message) {
    m.parent.None? && AcknowledgedDirectly(m)
  }

  /** From one of the controllers of the cloud, and no answer. */
  predicate FromController(m: Message) {
    && m.parent.None?
    && (m.source.EdgeController? || m.source.DynamicController? || m.source.DeviceController? ||
        m.source.PolicyController?)
  }

  /** What edged sends itself is written unless it is an insert, an event, a lease or the delete of a pod, which
      are for the cloud, and is not acknowledged, deletes apart; of the other senders at the edge only inserts
      and deletes are acknowledged. */
  lemma OwnMessages(m: Message)
    requires m.parent.None? && !FromController(m)
    ensures m.source.Edged? ==>
              (Handles(m) <==>
                 || m.op.Response? || (m.op.Update? && !m.resType.Event? && !m.resType.Lease?)
                 || (m.op.Patch? && !m.resType.Event?) || (m.op.Delete? && !m.resType.Pod?))
    ensures m.source.Edged? ==> (Acknowledges(m) <==> m.op.Delete? && !m.resType.Pod?)
    ensures !m.source.Edged? ==> (Acknowledges(m) <==> m.op.Delete? || (m.op.Insert? && !m.resType.Event?))
  {
  }

  /** The edge writes and acknowledges exactly the inserts and updates of the controllers, events apart, and
      their deletes; of the rest it writes patches and responses, and acknowledges nothing. */
  lemma ControllersAreAcknowledged(m: Message)
    requires FromController(m)
    ensures Plain(m) <==> m.op.Delete? || ((m.op.Insert? || m.op.Update?) && !m.resType.Event?)
    ensures Handles(m) && !Acknowledges(m) <==> m.op.Response? || (m.op.Patch? && !m.resType.Event?)
  {
  }
}
