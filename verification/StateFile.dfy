/** The saved peer state: the identity behind a length prefix, then the peer bundle. */
module StateFile {
  import opened Bytes
  import opened Wrappers
  import Framing

  function Saved(identity: seq<byte>, bundle: seq<byte>): seq<byte> {
    Be32(|identity|) + identity + bundle
  }

  method SaveState(identity: seq<byte>, bundle: seq<byte>) returns (buf: seq<byte>)
    ensures buf == Saved(identity, bundle)
  {
    buf := [];
    buf := buf + Be32(|identity|);
    buf := buf + identity;
    buf := buf + bundle;
  }

  /**
   The two byte strings handed to the decoders; nothing, where the file is called truncated. The
   prefix is read as a frame's is.
   */
  function LoadState(buf: seq<byte>): Option<(seq<byte>, seq<byte>)> {
    Framing.FirstFrame(buf)
  }

  /** A file loads as the pair it was saved from, and only if the identity's length fits the prefix. */
  lemma LoadsWhatWasSaved(buf: seq<byte>, identity: seq<byte>, bundle: seq<byte>)
    ensures LoadState(buf) == Some((identity, bundle)) <==> |identity| < 0x1_0000_0000 && buf == Saved(identity, bundle)
  {
    Framing.FirstFrameExactly(buf, identity, bundle);
  }
}
