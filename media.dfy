/**
 * The card presence state machine of reportMediaState: the stored presence
 * (cardPresence) against the Card Inserted bit, with Remount as the state the
 * transfer and setup paths leave behind when the block layer must see the
 * medium go away and come back.
 */
module Media {
  import opened Platform

  /** cardPresence after reportMediaState saw the Card Inserted bit `inserted`. */
  function MediaNext(s: Presence, inserted: bool): Presence
  {
    if s == Remount then NotPresent
    else if (s == IsPresent) == inserted then s
    else if inserted then IsPresent
    else NotPresent
  }

  /** The changedState reported with it. */
  predicate MediaChanged(s: Presence, inserted: bool)
  {
    s == Remount || (s == IsPresent) != inserted
  }

  /** Whether the report re-initialises the card: a newly inserted card gets a
      full reset and cardInit. */
  predicate MediaInit(s: Presence, inserted: bool)
  {
    s != Remount && s != IsPresent && inserted
  }

  /** A report never leaves Remount behind; a report from Remount says the medium
      changed and leaves no card; otherwise the report says the medium changed
      exactly when the stored state disagrees with the bit, and afterwards the
      stored state agrees with it. The card is initialised exactly when it is
      newly seen. */
  lemma MediaStep(s: Presence, inserted: bool)
    ensures MediaNext(s, inserted) != Remount
    ensures s == Remount ==> MediaChanged(s, inserted) && MediaNext(s, inserted) == NotPresent
    ensures s != Remount ==> (MediaChanged(s, inserted) <==> (s == IsPresent) != inserted)
    ensures s != Remount ==> (MediaNext(s, inserted) == IsPresent <==> inserted)
    ensures !MediaChanged(s, inserted) ==> MediaNext(s, inserted) == s
    ensures MediaInit(s, inserted) <==> MediaChanged(s, inserted) && MediaNext(s, inserted) == IsPresent && s != Remount
  {
  }

  /** With the card left alone, reports settle: after at most two reports the
      state agrees with the card, and the next report says nothing changed. */
  lemma MediaSettles(s: Presence, inserted: bool)
    ensures var s2 := MediaNext(MediaNext(s, inserted), inserted);
      !MediaChanged(s2, inserted) && (s2 == IsPresent <==> inserted)
    ensures s != Remount ==> !MediaChanged(MediaNext(s, inserted), inserted)
  {
  }
}
