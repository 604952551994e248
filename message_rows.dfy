/** How addMessage builds the message it saves. The entity is built with
    Lombok's builder, which starts with every field unset and fills only
    the fields the call names; a field initializer counts as a default only
    when the field is marked @Builder.Default. TicketMessage's createdAt
    has an initializer without that mark, so the builder leaves it unset,
    although its column is declared not null. */
module MessageRows {
  import opened Entities

  /** A message under construction: an unset field is None. */
  datatype MessageDraft = MessageDraft(
    ticketId: Option<nat>,
    authorId: Option<nat>,
    message: Option<string>,
    isInternal: Option<bool>,
    createdAt: Option<int>)

  /** Every not-null column has a value, so the row can be inserted. */
  predicate Insertable(d: MessageDraft) {
    d.ticketId.Some? && d.authorId.Some? && d.message.Some? && d.isInternal.Some? && d.createdAt.Some?
  }

  /** The draft the builder call in addMessage produces as written: it names
      ticket, user, message and isInternal, and nothing else. */
  function BuildAsWritten(ticketId: nat, authorId: nat, text: string, isInternal: bool): (d: MessageDraft)
    ensures d.createdAt.None?
  {
    MessageDraft(Some(ticketId), Some(authorId), Some(text), Some(isInternal), None)
  }

  /** The message as written can never be inserted. */
  lemma AsWrittenIsNotInsertable(ticketId: nat, authorId: nat, text: string, isInternal: bool)
    ensures !Insertable(BuildAsWritten(ticketId, authorId, text, isInternal))
  {
  }

  /** The draft with the initializer honoured as a default, as
      @Builder.Default would make it: createdAt is the clock at `now`. */
  function BuildWithDefault(ticketId: nat, authorId: nat, text: string, isInternal: bool, now: int): (d: MessageDraft)
    ensures Insertable(d) && d.createdAt == Some(now)
    ensures d == BuildAsWritten(ticketId, authorId, text, isInternal).(createdAt := Some(now))
  {
    MessageDraft(Some(ticketId), Some(authorId), Some(text), Some(isInternal), Some(now))
  }

  /** The stored row of an insertable draft, saved with id `id`. */
  function Row(d: MessageDraft, id: nat): (m: TicketMessage)
    requires Insertable(d)
    ensures m.id == id && Some(m.ticketId) == d.ticketId && Some(m.authorId) == d.authorId
    ensures Some(m.message) == d.message && Some(m.isInternal) == d.isInternal
    ensures Some(m.createdAt) == d.createdAt
  {
    TicketMessage(id, d.ticketId.value, d.authorId.value, d.message.value, d.isInternal.value, d.createdAt.value)
  }
}
