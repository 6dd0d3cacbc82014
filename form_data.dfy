/** The multipart payload a submitted form carries: an ordered list of named entries
    (see module Entries) whose values are text, uploaded files, or the two JSON fields the
    edit form sends, kept as structured values instead of their JSON text. */
module FormData {
  import opened Common
  import opened Entries

  newtype byte = x: int | 0 <= x < 256

  /** A browser `File`: its name and its bytes; `File#size` is the number of bytes. */
  datatype File = File(name: string, bytes: seq<byte>)

  datatype FormValue =
    | Text(text: string)
    | Blob(file: File)
    | IdListJson(ids: seq<int>)                 // JSON.stringify of a number[]
    | CaptionsJson(captions: map<int, string>)  // JSON.stringify of a Record<number, string>

  type Form = seq<Entry<FormValue>>

  /** `formData.get(key) as string`: the first value under `key` when it is text. */
  function TextField(fd: Form, key: string): Option<string> {
    var v := Get(fd, key);
    if v.Some? && v.value.Text? then Some(v.value.text) else None
  }

  /** The given files as form values, in order. */
  function Blobs(files: seq<File>): seq<FormValue>
  {
    seq(|files|, k requires 0 <= k < |files| => Blob(files[k]))
  }

  lemma BlobsPush(files: seq<File>, f: File)
    ensures Blobs(files + [f]) == Blobs(files) + [Blob(f)]
  {
  }
}
