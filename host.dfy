/**
 * What the providers see of the host: the media item handed in, and the file
 * system around it. Reading a file, listing a directory and parsing an NFO
 * document are inputs here, not actions.
 */
module Host {
  import opened Wrappers
  import opened Xml

  /** `MovieInfo`: the only field the providers read is the media path. */
  datatype MovieInfo = MovieInfo(path: Option<string>)

  /** The file system as the providers find it.
      `files` maps every existing file to its text;
      `listing(dir)` is `Directory.GetFiles(dir, ".encora-*")`, in the order the host returns it;
      `parse(text)` is `XDocument.Parse(text).Root` for the documents read. */
  datatype FileSystem = FileSystem(
    files: map<string, string>,
    listing: string -> seq<string>,
    parse: string -> Option<XElement>)

  /** `File.Exists(path)`. */
  predicate Exists(fs: FileSystem, path: string) {
    path in fs.files
  }

  /** `File.ReadAllText(path)` for an existing file. */
  function ReadText(fs: FileSystem, path: string): string
    requires Exists(fs, path)
  {
    fs.files[path]
  }
}
