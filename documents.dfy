/**
 * The documents screen: one document viewer, opened and closed by pressing a
 * document's card, and the documents/bills switch.
 */
module Documents {

  /** `selectedUri` when no document is open. */
  const Closed := ""

  /**
   * `documentToggle`: pressing the open document closes the viewer; pressing any
   * other switches to it.
   */
  function Toggle(selectedUri: string, uri: string): (r: string)
    ensures selectedUri == uri ==> r == Closed
    ensures selectedUri != uri ==> r == uri
  {
    if selectedUri == uri then Closed else uri
  }

  /** From a closed viewer, pressing the same card twice closes it again. */
  lemma ToggleTwiceFromClosed(uri: string)
    ensures Toggle(Toggle(Closed, uri), uri) == Closed
  {
  }

  /** The viewer shows at most one document: after any press it holds the pressed uri or nothing. */
  lemma ToggleOpensAtMostOne(selectedUri: string, uri: string)
    ensures Toggle(selectedUri, uri) in {Closed, uri}
  {
  }

  /** The documents and bills buttons set the view outright. */
  function ShowDocuments(isDocumentsVisible: bool): (r: bool)
    ensures r
  {
    true
  }

  function ShowBills(isDocumentsVisible: bool): (r: bool)
    ensures !r
  {
    false
  }

  /** Pressing either button again leaves the view as it is. */
  lemma ViewButtonsIdempotent(v: bool)
    ensures ShowDocuments(ShowDocuments(v)) == ShowDocuments(v)
    ensures ShowBills(ShowBills(v)) == ShowBills(v)
  {
  }
}
