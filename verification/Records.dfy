/** The values the indexer hands to the store, and the wrappers shared by the other modules. */
module Records {

  datatype Option<+T> = None | Some(value: T)

  datatype Result<+T> = Ok(value: T) | Err

  newtype byte = x: int | 0 <= x < 256

  /** UTF-8 text, compared byte by byte. */
  type Text = seq<byte>

  ghost predicate CollisionFree(hash: Text -> Text) {
    forall x, y {:trigger hash(x), hash(y)} :: hash(x) == hash(y) ==> x == y
  }

  /** One passage vector; the arithmetic inside the model is not part of this project. */
  type Vector = seq<real>

  datatype ChunkStructure = ChunkStructure(
    title: Option<Text>, headings: seq<(byte, Text)>, generatedNavigation: bool)

  datatype Chunk = Chunk(
    ord: nat, headingPath: seq<Text>, lineStart: nat, lineEnd: nat, text: Text, searchText: Text,
    claimMarks: Option<Text>, structure: Option<ChunkStructure>, overlapBytes: nat)

  datatype CorpusKey = CorpusKey(name: Text, root: Text)

  datatype PreparedFile = PreparedFile(
    fileRef: Text, corpusKey: CorpusKey, mtimeMs: int, contentHash: Text, summary: Text,
    keywords: seq<Text>, frontmatter: Option<Text>, indexedAtMs: int, chunks: seq<Chunk>)

  /** Format handlers number the chunks of a file from zero. */
  predicate WellFormed(file: PreparedFile) {
    forall i :: 0 <= i < |file.chunks| ==> file.chunks[i].ord == i
  }

  /** The part of a file that its content rows hold. The path, the times and the hash are not in it. */
  datatype Shared = Shared(summary: Text, keywords: seq<Text>, frontmatter: Option<Text>, chunks: seq<Chunk>)

  function SharedOf(file: PreparedFile): Shared {
    Shared(file.summary, file.keywords, file.frontmatter, file.chunks)
  }
}
