/** The editor provider that claims BoltDB files for the explorer editor. */
module EditorProvider {
  import opened Wrappers
  import opened Text
  import opened OpenAction

  /** How the explorer editor stands to the platform's default editor. */
  datatype FileEditorPolicy =
    | NoPolicy
    | HideDefaultEditor
    | PlaceBeforeDefaultEditor
    | PlaceAfterDefaultEditor

  /** `accept`, written out on its own: no directory, and a lower-cased
      extension among db, bolt and boltdb. */
  function Accept(file: VirtualFile): (b: bool)
    ensures file.isDirectory ==> !b
    ensures file.extension.None? ==> !b
  {
    if file.isDirectory then false
    else match file.extension
      case None => false
      case Some(e) => Lower(e) in {"db", "bolt", "boltdb"}
  }

  /** The provider and the action agree on every file. */
  lemma AcceptAgrees(file: VirtualFile)
    ensures Accept(file) == IsBoltDBFile(file)
  {
  }

  function EditorTypeId(): (id: string)
    ensures id == "BoltDBFileEditor"
  {
    "BoltDBFileEditor"
  }

  /** The explorer replaces the default editor for the files it accepts. */
  function Policy(): (p: FileEditorPolicy)
    ensures p == HideDefaultEditor
  {
    HideDefaultEditor
  }
}
