/** Compressor lookup (`_get_compressor`): a case-insensitive codec name picks
    one of the four codecs a tensor can be created with. */
module Compressors {
  import opened Outcomes
  import opened Strings

  /** LZ4 and Zstd at their library's default settings, the "default" marker
      (chunks stored as they are) and the PNG codec, which the orchestrator
      always builds with `solo_channel=True`. */
  datatype Codec = Lz4 | Zstd | Passthrough | Png(soloChannel: bool)

  function GetCompressor(name: string): Result<Codec> {
    var l := Lower(name);
    if l == "lz4" then Ok(Lz4)
    else if l == "zstd" then Ok(Zstd)
    else if l == "default" then Ok(Passthrough)
    else if l == "png" then Ok(Png(true))
    else Err(WrongCompressor)
  }

  /** The lower-case name of each codec the lookup can produce. */
  function CodecName(c: Codec): string {
    match c
    case Lz4 => "lz4"
    case Zstd => "zstd"
    case Passthrough => "default"
    case Png(_) => "png"
  }

  const KnownNames: seq<string> := ["lz4", "zstd", "default", "png"]

  /** The lookup ignores case: a name and its lower-case form give the same result. */
  lemma CompressorCaseInsensitive(name: string)
    ensures GetCompressor(name) == GetCompressor(Lower(name))
  {
    LowerIdempotent(name);
  }

  /** A name is accepted exactly when its lower-case form is one of the four
      known names; every other name raises the wrong-compressor error. */
  lemma CompressorAccepts(name: string)
    ensures GetCompressor(name).Ok? <==> Lower(name) in KnownNames
    ensures Lower(name) !in KnownNames ==> GetCompressor(name) == Err(WrongCompressor)
  {
  }

  /** Lookup and naming are inverse: each known name gives the codec named by
      it, "default" gives the pass-through marker, and distinct names give
      distinct codecs. */
  lemma CompressorRoundTrip(name: string)
    ensures GetCompressor(name).Ok? ==> CodecName(GetCompressor(name).value) == Lower(name)
    ensures GetCompressor(name).Ok? && GetCompressor(name).value.Png? ==> GetCompressor(name).value.soloChannel
    ensures Lower(name) == "default" ==> GetCompressor(name) == Ok(Passthrough)
  {
  }

  /** Each produced codec comes back from its own name, spelt in any case. */
  lemma NameRoundTrip(c: Codec, name: string)
    requires c != Png(false)
    requires Lower(name) == CodecName(c)
    ensures GetCompressor(name) == Ok(c)
  {
  }
}
