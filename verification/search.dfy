/** The search boxes: a record is kept when one of its text fields,
    lower-cased, contains the lower-cased search term. */
module Search {
  import opened Basics
  import opened Text
  import opened Listing
  import opened Forms

  /** `v?.toLowerCase().includes(lowered)`: only a string can match. */
  predicate TextMatches(v: Json, lowered: string) {
    v.JStr? && Contains(Lower(v.s), lowered)
  }

  /** `record.name.toLowerCase().includes(term.toLowerCase())`. */
  predicate NameMatches(record: Record, term: string) {
    TextMatches(Get(record, "name"), Lower(term))
  }

  /** Every string matches the empty term. */
  lemma EmptyTermMatchesText(v: Json)
    requires v.JStr?
    ensures TextMatches(v, "")
  {
    ContainsEmpty(Lower(v.s));
  }

  /** Matching ignores the case of the term: upper- and lower-case spellings
      of a term keep the same records. */
  lemma NameMatchIgnoresTermCase(record: Record, term: string)
    ensures NameMatches(record, term) <==> NameMatches(record, Lower(term))
  {
    LowerIdempotent(term);
  }

  /** The name filter of the brands and categories pages: the records whose
      name contains the term, in their original order. The empty term keeps
      every record whose name is a string. */
  function FilterByName(records: seq<Record>, term: string): (r: seq<Record>)
    ensures Subseq(r, records)
    ensures forall x :: x in r <==> x in records && NameMatches(x, term)
    ensures |r| == CountWhere(records, (x: Record) => NameMatches(x, term))
    ensures term == "" && (forall i :: 0 <= i < |records| ==> Get(records[i], "name").JStr?) ==> r == records
  {
    assert term == "" ==> (forall i :: 0 <= i < |records| && Get(records[i], "name").JStr? ==> NameMatches(records[i], term)) by {
      if term == "" {
        forall i | 0 <= i < |records| && Get(records[i], "name").JStr? ensures NameMatches(records[i], term) {
          EmptyTermMatchesText(Get(records[i], "name"));
        }
      }
    }
    Filter(records, (x: Record) => NameMatches(x, term))
  }
}
