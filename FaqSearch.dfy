/**
 * `initFAQSearch`: after each (debounced) input in the search field, show the FAQ items
 * whose text contains the query, ignoring case and the query's surrounding blanks.
 */
module FaqSearch {
  import opened JsString

  /** An `.accordion-item`: its text content and its `style.display`. */
  datatype FaqItem = FaqItem(text: string, display: string)

  /** The query as the listener uses it: lower-cased, then trimmed. */
  function NormalizedQuery(query: string): string {
    Trim(ToLower(query))
  }

  /** With the normalised query `q`, an item stays visible when `q` is empty or occurs in its lower-cased text. */
  predicate Visible(q: string, text: string) {
    q == [] || Includes(ToLower(text), q)
  }

  /** An item matches what was typed in the search field. */
  predicate Matches(query: string, text: string) {
    Visible(NormalizedQuery(query), text)
  }

  /** The item loop: each item keeps its text and is shown (`display` reset to "") when visible, hidden ("none") otherwise. */
  method ShowVisible(items: array<FaqItem>, q: string)
    modifies items
    ensures forall i :: 0 <= i < items.Length ==>
      items[i] == FaqItem(old(items[i].text), if Visible(q, old(items[i].text)) then "" else "none")
  {
    for i := 0 to items.Length
      invariant forall k :: 0 <= k < i ==>
        items[k] == FaqItem(old(items[k].text), if Visible(q, old(items[k].text)) then "" else "none")
      invariant forall k :: i <= k < items.Length ==> items[k] == old(items[k])
    {
      var text := items[i].text;
      items[i] := FaqItem(text, if Visible(q, text) then "" else "none");
    }
  }

  /** The (debounced) `input` listener: normalise the query once, then filter every item. */
  method OnSearchInput(items: array<FaqItem>, query: string)
    modifies items
    ensures forall i :: 0 <= i < items.Length ==>
      items[i] == FaqItem(old(items[i].text), if Matches(query, old(items[i].text)) then "" else "none")
  {
    ShowVisible(items, NormalizedQuery(query));
  }

  /** A query of nothing but white space shows every item. */
  lemma BlankQueryShowsAll(query: string, text: string)
    requires AllSpace(query)
    ensures Matches(query, text)
  {
    ToLowerAllSpace(query);
  }

  /**
   * A query with some non-blank character shows exactly the items whose lower-cased text
   * holds the normalised query at some position.
   */
  lemma MatchMeansOccurrence(query: string, text: string)
    requires !AllSpace(query)
    ensures Matches(query, text) <==> exists i :: OccursAt(NormalizedQuery(query), ToLower(text), i)
  {
    ToLowerAllSpace(query);
    assert NormalizedQuery(query) != [];
    assert Matches(query, text) == Includes(ToLower(text), NormalizedQuery(query));
  }

  /** The filter ignores case: lower-casing the query or the text beforehand changes nothing. */
  lemma MatchIgnoresCase(query: string, text: string)
    ensures Matches(ToLower(query), text) == Matches(query, text)
    ensures Matches(query, ToLower(text)) == Matches(query, text)
  {
    ToLowerIdempotent(query);
    ToLowerIdempotent(text);
  }

  /** White space before and after the query, in any amounts and on either side alone, changes nothing. */
  lemma MatchIgnoresSurroundingBlanks(query: string, p: string, q: string, text: string)
    requires AllSpace(p) && AllSpace(q)
    ensures Matches(p + query + q, text) == Matches(query, text)
  {
    ToLowerAppend(p + query, q);
    ToLowerAppend(p, query);
    ToLowerAllSpace(p);
    ToLowerAllSpace(q);
    TrimPadded(ToLower(p), ToLower(query), ToLower(q));
  }
}
