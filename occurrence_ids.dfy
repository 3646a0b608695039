/**
 * Ids of expanded occurrences of repeating rows, "N-YYYY-MM-DD", and the
 * resolution back to the stored row id that the done, delete and save
 * handlers perform.
 */
module OccurrenceIds {
  import opened JsText
  import opened Records

  /** The id the store gives the occurrence of row `n` on the day `date`. */
  function OccurrenceId(n: nat, date: string): string {
    NatToString(n) + "-" + date
  }

  /**
   * A text id is read with `parseInt` of its first '-' segment; a numeric id
   * is used as it is.
   */
  function ResolveBaseId(id: TaskId): (r: Option<int>)
    ensures id.NumId? ==> r == Some(id.n)
  {
    match id
    case NumId(n) => Some(n)
    case TextId(s) => ParseInt(Split(s, '-')[0])
  }

  /** Resolving the id of any occurrence of row `n` gives `n`, whatever the date text. */
  lemma ResolveOccurrence(n: nat, date: string)
    ensures ResolveBaseId(TextId(OccurrenceId(n, date))) == Some(n)
  {
    var head := NatToString(n);
    DigitsHaveNoSeparator(head, '-');
    assert OccurrenceId(n, date) == head + ['-'] + date;
    SplitAtFirst(head, date, '-');
    ParseIntNatToString(n);
  }

  /**
   * All occurrences of one row resolve to the same id, so an action on any
   * occurrence acts on the row and hence on every occurrence.
   */
  lemma OccurrencesShareBase(n: nat, date1: string, date2: string)
    ensures ResolveBaseId(TextId(OccurrenceId(n, date1))) == ResolveBaseId(TextId(OccurrenceId(n, date2)))
    ensures ResolveBaseId(TextId(OccurrenceId(n, date1))) == ResolveBaseId(NumId(n))
  {
    ResolveOccurrence(n, date1);
    ResolveOccurrence(n, date2);
  }
}
