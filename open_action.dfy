/** The "Open in BoltDB Explorer" action: which files it offers itself for,
    and what it does when chosen. */
module OpenAction {
  import opened Wrappers
  import opened Text

  /** What the action reads of a file: whether it is a directory, and its
      extension (after the last '.'), if it has one. */
  datatype VirtualFile = VirtualFile(isDirectory: bool, extension: Option<string>)

  /** The extensions of BoltDB files, in lower case. */
  const BoltExtensions: set<string> := {"db", "bolt", "boltdb"}

  /** `isBoltDBFile`: not a directory, and an extension that is one of the
      BoltDB extensions once lower-cased. */
  function IsBoltDBFile(file: VirtualFile): (b: bool)
    ensures file.isDirectory ==> !b
    ensures file.extension.None? ==> !b
    ensures !file.isDirectory && file.extension.Some? ==>
      (b <==> Lower(file.extension.value) in BoltExtensions)
  {
    if file.isDirectory then false
    else
      var extension := match file.extension case Some(e) => Some(Lower(e)) case None => None;
      extension.Some? && extension.value in BoltExtensions
  }

  /** The verdict ignores the case of the extension. */
  lemma IsBoltDBFileIgnoresCase(file: VirtualFile, other: string)
    requires file.extension.Some? && Lower(other) == Lower(file.extension.value)
    ensures IsBoltDBFile(file.(extension := Some(other))) == IsBoltDBFile(file)
  {
  }

  /** An accepted extension is, letter for letter, db, bolt or boltdb in
      any mix of cases. */
  lemma IsBoltDBFileExtensions(file: VirtualFile)
    requires IsBoltDBFile(file)
    ensures var e := file.extension.value;
      (|e| == 2 && Lower(e) == "db") || (|e| == 4 && Lower(e) == "bolt") || (|e| == 6 && Lower(e) == "boltdb")
  {
  }

  /** The action's presentation in a menu. */
  class Presentation {
    var isVisible: bool
    var isEnabled: bool

    constructor ()
      ensures isVisible && isEnabled
    {
      isVisible := true;
      isEnabled := true;
    }

    /** `update`: shown, and enabled, exactly for an accepted file in an
        open project. */
    method Update(hasProject: bool, file: Option<VirtualFile>)
      modifies this
      ensures isVisible <==> hasProject && file.Some? && IsBoltDBFile(file.value)
      ensures isEnabled == isVisible
    {
      isVisible := hasProject && file.Some? && IsBoltDBFile(file.value);
      isEnabled := isVisible;
    }
  }

  /** `actionPerformed`: the file handed to the editor manager to open, if
      any; nothing happens without a project, a file, or an accepted file. */
  function ActionPerformed(hasProject: bool, file: Option<VirtualFile>): (toOpen: Option<VirtualFile>)
    ensures toOpen.Some? <==> hasProject && file.Some? && IsBoltDBFile(file.value)
    ensures toOpen.Some? ==> toOpen == file
  {
    if !hasProject then None
    else match file
      case None => None
      case Some(f) => if !IsBoltDBFile(f) then None else Some(f)
  }

  /** The action opens a file exactly when `update` has made it visible. */
  method ChosenAfterUpdate(hasProject: bool, file: Option<VirtualFile>)
    returns (shown: bool, toOpen: Option<VirtualFile>)
    ensures shown <==> toOpen.Some?
  {
    var presentation := new Presentation();
    presentation.Update(hasProject, file);
    shown := presentation.isVisible;
    toOpen := ActionPerformed(hasProject, file);
  }
}
