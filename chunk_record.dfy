/**
 * The chunk dictionaries that flow through the pipeline,
 * `{'content': str, 'metadata': {str: str | int}}`, and the tokenizers.
 */
module ChunkRecord {
  import opened Text

  /** A tokenizer: the number of tokens of a text under one fixed encoding.
      It need not be additive or monotone. */
  type TokenCount = string -> nat

  /** A metadata value: file metadata holds strings, chunk positions are integers. */
  datatype Value = Str(s: string) | Int(n: int)

  /** A chunk: its text and its metadata dictionary. */
  datatype Chunk = Chunk(content: string, metadata: map<string, Value>)

  /** How an f-string renders a metadata value. */
  function Render(v: Value): string {
    match v
    case Str(s) => s
    case Int(n) => IntToString(n)
  }
}
