/** The per-job status document: a JSON object kept in one file, read and
    replaced whole. */
module StatusStore {
  import opened PyStr

  /** A JSON scalar of a status document; `Stamp(t)` is an ISO time stamp
      written for instant `t`. */
  datatype Value = Null | Bool(b: bool) | Int(i: int) | Str(s: string) | Stamp(t: int)

  type Doc = map<string, Value>

  /** The status file on disk: absent, holding text that is not a JSON
      object, or holding a document. */
  datatype FileState = Missing | Corrupt | Present(doc: Doc)

  /** How `read_status` treats an absent file: `processmanager/core/Job.py`
      reads it as an empty document, both program drafts as `None`. */
  datatype ReadMode = MissingIsEmpty | MissingIsNone

  /** Python truthiness of a stored value. */
  predicate Truthy(v: Value) {
    match v
    case Null => false
    case Bool(b) => b
    case Int(i) => i != 0
    case Str(s) => s != []
    case Stamp(_) => true
  }

  /** `dict.get(key, default)`. */
  function Get(d: Doc, key: string, default: Value): Value {
    if key in d then d[key] else default
  }

  /** `write_status(doc)`: the file is replaced by the document. */
  function WriteStatus(d: Doc): FileState {
    Present(d)
  }

  /** `read_status()`: the stored document, `None` for a file that does not
      hold one, and for a missing one whatever the draft returns. */
  function ReadStatus(mode: ReadMode, f: FileState): Option<Doc> {
    match f
    case Missing => if mode == MissingIsEmpty then Some(map[]) else None
    case Corrupt => None
    case Present(d) => Some(d)
  }

  /** A written document reads back exactly, whatever the draft, and
      replaces whatever was read before. */
  lemma WriteThenRead(mode: ReadMode, d: Doc)
    ensures ReadStatus(mode, WriteStatus(d)) == Some(d)
    ensures ReadOrEmpty(mode, WriteStatus(d)) == d
  {
  }

  /** The drafts read every file alike except a missing one, which the
      program drafts report as a failed read; a corrupt file fails in
      both. */
  lemma ReadModesAgree(f: FileState)
    ensures ReadStatus(MissingIsEmpty, f) == ReadStatus(MissingIsNone, f) <==> !f.Missing?
    ensures ReadStatus(MissingIsEmpty, f).None? <==> f.Corrupt?
    ensures ReadStatus(MissingIsNone, f).Some? ==> ReadStatus(MissingIsEmpty, f) == ReadStatus(MissingIsNone, f)
  {
  }

  /** `read_status() or {}`: a failed read and an empty document look alike. */
  function ReadOrEmpty(mode: ReadMode, f: FileState): (d: Doc)
    ensures f.Present? ==> d == f.doc
    ensures !f.Present? ==> d == map[]
  {
    match ReadStatus(mode, f)
    case None => map[]
    case Some(d) => d
  }
}
