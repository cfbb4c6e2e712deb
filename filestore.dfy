/** The local disk the batch job, the speech synthesiser and the API share:
    a map from path to file contents, updated in place. Directories are not
    modelled. */
module FileStore {
  import opened PyValue

  /** One column of a CSV file as pandas reads it: its header and its cells,
      a missing cell being NaN (None here). */
  datatype Column = Column(name: string, cells: seq<Option<string>>)

  /** What a file holds: a pickled analysis result, a CSV table or audio
      bytes of some size. */
  datatype File = Pickle(value: Value) | Csv(columns: seq<Column>) | Audio(size: nat)

  class FileSystem {
    var files: map<string, File>

    constructor (initial: map<string, File>)
      ensures files == initial
    {
      files := initial;
    }

    /** open(path, 'wb') followed by a complete write: the file at path is
        replaced and nothing else changes. */
    method Write(path: string, f: File)
      modifies this
      ensures files == old(files)[path := f]
    {
      files := files[path := f];
    }

    /** os.remove(path) of a file that exists. */
    method Remove(path: string)
      requires path in files
      modifies this
      ensures files == old(files) - {path}
    {
      files := files - {path};
    }
  }

  /** `pickle.load(open(path, 'rb'))`: None when the file is missing or does
      not hold a pickle. */
  function LoadPickle(files: map<string, File>, path: string): (r: Option<Value>)
    ensures r.Some? <==> path in files && files[path].Pickle?
    ensures r.Some? ==> files[path] == Pickle(r.value)
  {
    if path in files && files[path].Pickle? then Some(files[path].value) else None
  }

  /** `pd.read_csv(path)`: None when the file is missing or is not a table. */
  function ReadCsv(files: map<string, File>, path: string): (r: Option<seq<Column>>)
    ensures r.Some? <==> path in files && files[path].Csv?
    ensures r.Some? ==> files[path] == Csv(r.value)
  {
    if path in files && files[path].Csv? then Some(files[path].columns) else None
  }
}
