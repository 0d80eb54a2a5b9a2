/**
 * The two records the changelog reads from the repository: commits and tags.
 * Both are supplied newest-first by the repository reader, which is not part
 * of this model.
 */
module Git {
  /** A commit: identified by its revision id; `parents` has more than one id for a merge. */
  datatype Commit = Commit(
    rev: string,
    title: string,
    body: string,
    author: string,
    authorEmail: string,
    parents: seq<string>)

  /** A tag: its name, the revision it points at and its date. */
  datatype Tag = Tag(name: string, rev: string, date: string)
}
