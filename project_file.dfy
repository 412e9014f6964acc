/**
 * The domain errors raised by the project-file processing steps, and the
 * decision procedure `check_valid_project_file`.
 */
module ProjectFile {
  import Common
  import Layers

  /** The kinds of domain error of the project-file family, with their named fields. */
  datatype ErrorKind =
    | ProjectFileNotFound(projectFilename: string)
    | InvalidFileExtension(projectFilename: string, extension: string)
    | InvalidXmlFile(projectFilename: string, xmlError: string)
    | InvalidQgisFile(projectFilename: string, error: string)
    | InvalidLayers(layersSummary: seq<Layers.LayerRow>)
    | FailedThumbnailGeneration(reason: string)

  /** The verdict of a check that returns nothing on success and raises on failure. */
  datatype Verdict = Accepted | Rejected(error: ErrorKind)

  /**
   * Validity of a project file from three facts about it: whether it exists,
   * its suffix, and the XML parse error of its contents (None when the
   * contents parse). The parse error is consulted only for ".qgs".
   */
  function CheckValidProjectFile(projectFilename: string, fileExists: bool, suffix: string, xmlError: Common.Option<string>): (v: Verdict)
    ensures !fileExists ==> v == Rejected(ProjectFileNotFound(projectFilename))
    ensures v.Accepted? <==> fileExists && (suffix == ".qgz" || (suffix == ".qgs" && xmlError.None?))
    ensures fileExists && suffix == ".qgs" && xmlError.Some? ==>
      v == Rejected(InvalidXmlFile(projectFilename, xmlError.value))
    ensures fileExists && suffix != ".qgs" && suffix != ".qgz" ==>
      v == Rejected(InvalidFileExtension(projectFilename, suffix))
  {
    if !fileExists then
      Rejected(ProjectFileNotFound(projectFilename))
    else if suffix == ".qgs" then
      match xmlError
      case Some(err) => Rejected(InvalidXmlFile(projectFilename, err))
      case None => Accepted
    else if suffix != ".qgz" then
      Rejected(InvalidFileExtension(projectFilename, suffix))
    else
      Accepted
  }

  /** A ".qgz" file is judged without looking at its contents. */
  lemma QgzIgnoresContents(projectFilename: string, fileExists: bool, e1: Common.Option<string>, e2: Common.Option<string>)
    ensures CheckValidProjectFile(projectFilename, fileExists, ".qgz", e1)
         == CheckValidProjectFile(projectFilename, fileExists, ".qgz", e2)
  {
  }
}
