/** A directory tree as `fs.readdirSync` and `fs.statSync` show it to the asset tools: the entries
    of a directory in the order `readdirSync` lists them. */
module FileTree {

  datatype Entry =
    | File(name: string)
    /** a directory and its own entries */
    | Dir(name: string, entries: seq<Entry>)
    /** an entry `fs.statSync` cannot describe (for instance a dangling symbolic link) */
    | Dangling(name: string)
}
