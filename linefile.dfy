/** FileHandler of the line-based version: the whole file held in memory,
    replaced or appended to, with a flag saying it changed since it was
    fetched or last written back. */
module LineFiles {
  import opened Bytes
  import opened Failures
  import opened Utf8

  class FileHandler {
    const path: string
    const mode: string
    /** The content of the ByteArrayOutputStream `cache`. */
    var cache: seq<byte>
    var dirty: bool

    constructor (p: string, m: string, initial: seq<byte>)
      ensures path == p && mode == m && cache == initial && !dirty
    {
      path := p;
      mode := m;
      cache := initial;
      dirty := false;
    }

    /** isReadOnly: the mode is exactly "ro". */
    predicate IsReadOnly() {
      mode == "ro"
    }

    function IsDirty(): bool
      reads this
    {
      dirty
    }

    method ClearDirty()
      modifies this
      ensures !dirty && cache == old(cache)
    {
      dirty := false;
    }

    /** getBytes: a copy of the content. */
    function GetBytes(): seq<byte>
      reads this
    {
      cache
    }

    /** readString: the content decoded as UTF-8. */
    function ReadString(): string
      reads this
    {
      Decode(cache)
    }

    /** writeString: refused in mode "ro"; otherwise the content becomes
        the string's UTF-8 bytes. */
    method WriteString(s: string) returns (r: Result<()>)
      modifies this
      ensures IsReadOnly() ==> r == Err(IllegalState) && cache == old(cache) && dirty == old(dirty)
      ensures !IsReadOnly() ==> r == Ok(()) && cache == Encode(s) && dirty
    {
      if IsReadOnly() {
        return Err(IllegalState);
      }
      cache := Encode(s);
      dirty := true;
      r := Ok(());
    }

    /** appendString: refused in mode "ro"; otherwise the string's UTF-8
        bytes go after the content. */
    method AppendString(s: string) returns (r: Result<()>)
      modifies this
      ensures IsReadOnly() ==> r == Err(IllegalState) && cache == old(cache) && dirty == old(dirty)
      ensures !IsReadOnly() ==> r == Ok(()) && cache == old(cache) + Encode(s) && dirty
    {
      if IsReadOnly() {
        return Err(IllegalState);
      }
      cache := cache + Encode(s);
      dirty := true;
      r := Ok(());
    }
  }

  // ---------------------------------------------------------------------
  // Properties

  /** What writeString stores, readString gives back. */
  lemma ReadAfterWrite(s: string)
    ensures Decode(Encode(s)) == s
  {
    DecodeEncode(s);
  }

  /** writeString then appendString reads back as the two strings one
      after the other. */
  lemma ReadAfterWriteAppend(s: string, t: string)
    ensures Decode(Encode(s) + Encode(t)) == s + t
  {
    EncodeAppend(s, t);
    DecodeEncode(s + t);
  }

  /** A read-only handler never becomes dirty and never changes: every
      write is refused. */
  method ReadOnlyUnchanged(h: FileHandler, s: string, t: string) returns (written: Result<()>, appended: Result<()>)
    requires h.IsReadOnly()
    modifies h
    ensures written == Err(IllegalState) && appended == Err(IllegalState)
    ensures h.cache == old(h.cache) && h.dirty == old(h.dirty)
  {
    written := h.WriteString(s);
    appended := h.AppendString(t);
  }
}
