/**
 * The file system as the source sees it through `existsSync`,
 * `readFileSync`, `readdirSync`, `statSync` and `JSON.parse`: a snapshot of
 * file contents, directory names, directory listings and file times, read
 * but never written by the functions of this model.
 */
module Disk {
  import opened Common
  import opened JsValues

  /** The two times of `fs.Stats` the source uses, in milliseconds since the epoch. */
  datatype Stat = Stat(birthtime: int, mtime: int)

  /**
   * `listing` gives the entry names of a directory in the order `readdirSync`
   * returns them (a directory without an entry there is empty); `stats` holds
   * the paths that `statSync` succeeds on.
   */
  datatype Disk = Disk(
    files: map<string, string>,
    dirs: set<string>,
    listing: map<string, seq<string>>,
    stats: map<string, Stat>)

  /** `existsSync(path)`. */
  predicate Exists(d: Disk, path: string) {
    path in d.files || path in d.dirs
  }

  /** `readFileSync(path, 'utf-8')`: `None` when it throws (missing path or a directory). */
  function Read(d: Disk, path: string): (r: Option<string>)
    ensures r.Some? <==> path in d.files
    ensures r.Some? ==> Exists(d, path)
  {
    if path in d.files then Some(d.files[path]) else None
  }

  /**
   * `JSON.parse(readFileSync(path, 'utf-8'))`, where `parse` is `JSON.parse`
   * (`None` when it throws).
   */
  function ReadJson(d: Disk, path: string, parse: string -> Option<Value>): (r: Option<Value>)
    ensures r.Some? ==> path in d.files && parse(d.files[path]) == r
  {
    match Read(d, path)
    case None => None
    case Some(text) => parse(text)
  }

  /** `readdirSync(dir)`: `None` when it throws (the path is missing or not a directory). */
  function ReadDir(d: Disk, dir: string): (r: Option<seq<string>>)
    ensures r.Some? <==> dir in d.dirs
  {
    if dir !in d.dirs then None
    else if dir in d.listing then Some(d.listing[dir])
    else Some([])
  }

  /** `statSync(path)`: `None` when it throws. */
  function StatOf(d: Disk, path: string): Option<Stat> {
    if path in d.stats then Some(d.stats[path]) else None
  }
}
