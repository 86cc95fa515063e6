/** The key orders that the mail model leaves open do exist: comparing ids part by part is one. */
module MailOrders {
  import opened Orders
  import opened MailLedgers

  predicate AgentLe(a: AgentId, b: AgentId) {
    if a.transport == b.transport then StringLe(a.thread, b.thread) else StringLe(a.transport, b.transport)
  }

  function Kind(a: Address): nat {
    match a
    case AgentMailbox(_) => 0
    case Grantable(_) => 1
    case OtherAddress(_) => 2
  }

  predicate AddressLe(a: Address, b: Address) {
    if Kind(a) != Kind(b) then Kind(a) < Kind(b)
    else
      match a
      case AgentMailbox(id) => AgentLe(id, b.id)
      case Grantable(text) => StringLe(text, b.text)
      case OtherAddress(text) => StringLe(text, b.text)
  }

  predicate DeliveryLe(a: DeliveryId, b: DeliveryId) {
    if a.message == b.message then AddressLe(a.recipient, b.recipient) else StringLe(a.message, b.message)
  }

  predicate NoteIdLe(a: NoteId, b: NoteId) {
    if a.delivery == b.delivery then AgentLe(a.agent, b.agent) else DeliveryLe(a.delivery, b.delivery)
  }

  lemma {:induction false} AgentLeTotal()
    ensures TotalOrder(AgentLe)
  {
    StringLeTotalOrder();
    forall a: AgentId, b: AgentId ensures AgentLe(a, b) || AgentLe(b, a) {
    }
    forall a: AgentId, b: AgentId, c: AgentId | AgentLe(a, b) && AgentLe(b, c) ensures AgentLe(a, c) {
    }
    forall a: AgentId, b: AgentId | AgentLe(a, b) && AgentLe(b, a) ensures a == b {
    }
  }

  lemma {:induction false} AddressLeTotal()
    ensures TotalOrder(AddressLe)
  {
    StringLeTotalOrder();
    AgentLeTotal();
    hide AgentLe, StringLe;
    forall a: Address, b: Address ensures AddressLe(a, b) || AddressLe(b, a) {
    }
    forall a: Address, b: Address, c: Address | AddressLe(a, b) && AddressLe(b, c) ensures AddressLe(a, c) {
    }
    forall a: Address, b: Address | AddressLe(a, b) && AddressLe(b, a) ensures a == b {
    }
  }

  lemma {:induction false} DeliveryLeTotal()
    ensures TotalOrder(DeliveryLe)
  {
    StringLeTotalOrder();
    AddressLeTotal();
    hide AddressLe, StringLe;
    forall a: DeliveryId, b: DeliveryId ensures DeliveryLe(a, b) || DeliveryLe(b, a) {
    }
    forall a: DeliveryId, b: DeliveryId, c: DeliveryId | DeliveryLe(a, b) && DeliveryLe(b, c) ensures DeliveryLe(a, c) {
    }
    forall a: DeliveryId, b: DeliveryId | DeliveryLe(a, b) && DeliveryLe(b, a) ensures a == b {
    }
  }

  lemma {:induction false} NoteIdLeTotal()
    ensures TotalOrder(NoteIdLe)
  {
    AgentLeTotal();
    DeliveryLeTotal();
    hide AgentLe, DeliveryLe;
    forall a: NoteId, b: NoteId ensures NoteIdLe(a, b) || NoteIdLe(b, a) {
    }
    forall a: NoteId, b: NoteId, c: NoteId | NoteIdLe(a, b) && NoteIdLe(b, c) ensures NoteIdLe(a, c) {
    }
    forall a: NoteId, b: NoteId | NoteIdLe(a, b) && NoteIdLe(b, a) ensures a == b {
    }
  }

  predicate TimeLe(a: int, b: int) { a <= b }

  lemma {:induction false} TimeLeTotal()
    ensures TotalOrder(TimeLe)
  {
  }

  function ByParts(): (o: KeyOrder) { KeyOrder(AgentLe, DeliveryLe, NoteIdLe, AddressLe, TimeLe) }

  lemma {:induction false} ByPartsValid()
    ensures ByParts().Valid()
  {
    hide TotalOrder;
    AgentLeTotal();
    DeliveryLeTotal();
    NoteIdLeTotal();
    AddressLeTotal();
    TimeLeTotal();
  }
}
