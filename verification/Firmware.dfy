/** Reassembly of the firmware tag from the text chunks that answer a query. */
module Firmware {
  import opened Bytes
  import opened Messages

  const MAX_FIRMWARE_BYTES := 256
  const VERSION_LEN := 8
  /** "S-V" */
  const MARKER: seq<byte> := [0x53, 0x2D, 0x56]

  /** At most one frame's data. */
  type Chunk = s: seq<byte> | |s| <= 8

  predicate MarkerAt(b: seq<byte>, i: nat) {
    i + 3 <= |b| && b[i..i + 3] == MARKER
  }

  /** The tag at the first marker at or after `i`, once all its bytes are there. */
  function VersionFrom(b: seq<byte>, i: nat): Option<seq<byte>>
    decreases |b| - i
  {
    if i + 3 > |b| then None
    else if MarkerAt(b, i) then if i + VERSION_LEN > |b| then None else Some(b[i..i + VERSION_LEN])
    else VersionFrom(b, i + 1)
  }

  function Version(b: seq<byte>): Option<seq<byte>> {
    VersionFrom(b, 0)
  }

  /** Chunks are appended until the buffer has reached its cap. */
  function Appended(buffer: seq<byte>, chunk: Chunk): seq<byte> {
    if |buffer| < MAX_FIRMWARE_BYTES then buffer + chunk else buffer
  }

  class FirmwareBuffer {
    var data: seq<byte>

    constructor ()
      ensures data == []
    {
      data := [];
    }

    /**
     * Each query gets its own reply buffer, even one the transport then fails to send; an interface that is not
     * connected keeps what it has.
     */
    method SendFirmwareQuery(connected: bool) returns (ok: bool)
      modifies this
      ensures data == if connected then [] else old(data)
      ensures ok ==> connected
    {
      if !connected {
        return false;
      }
      Clear();
      ok := *;
    }

    method Clear()
      modifies this
      ensures data == []
    {
      data := [];
    }

    method Append(chunk: Chunk)
      modifies this
      ensures data == Appended(old(data), chunk)
    {
      if |data| < MAX_FIRMWARE_BYTES {
        data := data + chunk;
      }
    }

    method GetFirmwareVersion() returns (r: Option<seq<byte>>)
      ensures r == Version(data)
    {
      if |data| < |MARKER| {
        return None;
      }
      var i: nat := 0;
      while i + |MARKER| <= |data|
        invariant Version(data) == VersionFrom(data, i)
      {
        if data[i..i + |MARKER|] == MARKER {
          if i + VERSION_LEN > |data| {
            return None;
          }
          return Some(data[i..i + VERSION_LEN]);
        }
        i := i + 1;
      }
      r := None;
    }
  }

  // ---------- What the answer is ----------

  lemma {:induction false} VersionFromMeans(b: seq<byte>, i: nat)
    requires i <= |b|
    ensures VersionFrom(b, i).None? <==> forall k :: i <= k && k + VERSION_LEN <= |b| ==> !MarkerAt(b, k)
    ensures VersionFrom(b, i).Some? ==>
              exists k :: i <= k && k + VERSION_LEN <= |b| && MarkerAt(b, k)
                          && VersionFrom(b, i) == Some(b[k..k + VERSION_LEN])
                          && forall j :: i <= j < k ==> !MarkerAt(b, j)
    decreases |b| - i
  {
    if i + 3 > |b| {
    } else if MarkerAt(b, i) {
      if i + VERSION_LEN <= |b| {
        assert VersionFrom(b, i) == Some(b[i..i + VERSION_LEN]);
      }
    } else {
      VersionFromMeans(b, i + 1);
      if VersionFrom(b, i).Some? {
        var k :| i + 1 <= k && k + VERSION_LEN <= |b| && MarkerAt(b, k)
                 && VersionFrom(b, i + 1) == Some(b[k..k + VERSION_LEN])
                 && forall j :: i + 1 <= j < k ==> !MarkerAt(b, j);
        assert forall j :: i <= j < k ==> !MarkerAt(b, j);
      }
    }
  }

  /** The answer is the first marker that has all its eight bytes, and there is an answer exactly if one has. */
  lemma VersionIsFirstCompleteTag(b: seq<byte>)
    ensures Version(b).None? <==> forall k :: 0 <= k && k + VERSION_LEN <= |b| ==> !MarkerAt(b, k)
    ensures Version(b).Some? ==>
              exists k :: 0 <= k && k + VERSION_LEN <= |b| && MarkerAt(b, k) && Version(b) == Some(b[k..k + VERSION_LEN])
                          && forall j :: 0 <= j < k ==> !MarkerAt(b, j)
  {
    VersionFromMeans(b, 0);
  }

  lemma {:induction false} VersionFromStable(b: seq<byte>, more: seq<byte>, i: nat)
    requires VersionFrom(b, i).Some?
    ensures VersionFrom(b + more, i) == VersionFrom(b, i)
    decreases |b| - i
  {
    assert (b + more)[i..i + 3] == b[i..i + 3];
    if MarkerAt(b, i) {
      assert (b + more)[i..i + VERSION_LEN] == b[i..i + VERSION_LEN];
    } else {
      VersionFromStable(b, more, i + 1);
    }
  }

  // ---------- The answer does not depend on how the reply is cut into frames ----------

  function Flat(chunks: seq<Chunk>): seq<byte>
    decreases |chunks|
  {
    if chunks == [] then [] else Flat(chunks[..|chunks| - 1]) + chunks[|chunks| - 1]
  }

  /** The buffer after a query and these chunks. */
  function Fed(chunks: seq<Chunk>): seq<byte>
    decreases |chunks|
  {
    if chunks == [] then [] else Appended(Fed(chunks[..|chunks| - 1]), chunks[|chunks| - 1])
  }

  /** The buffer holds the reply's beginning: all of it up to the cap, and never more than 263 bytes. */
  lemma {:induction false} BufferIsCappedPrefix(chunks: seq<Chunk>)
    ensures Fed(chunks) <= Flat(chunks) && |Fed(chunks)| <= 263
    ensures Fed(chunks) == Flat(chunks) || |Fed(chunks)| >= MAX_FIRMWARE_BYTES
    decreases |chunks|
  {
    if chunks == [] {
    } else {
      BufferIsCappedPrefix(chunks[..|chunks| - 1]);
    }
  }

  /** Replies of the same bytes, cut in any two ways, fill the same buffer if they fit under the cap. */
  lemma ChunkingIsInvisible(chunks: seq<Chunk>, other: seq<Chunk>)
    requires Flat(chunks) == Flat(other) && |Flat(chunks)| <= MAX_FIRMWARE_BYTES
    ensures Fed(chunks) == Fed(other) == Flat(chunks)
  {
    BufferIsCappedPrefix(chunks);
    BufferIsCappedPrefix(other);
  }

  /** A tag complete within the first 256 bytes is the answer, however long the reply and wherever it is cut. */
  lemma TagUnderCapIsTheAnswer(chunks: seq<Chunk>)
    requires |Flat(chunks)| >= MAX_FIRMWARE_BYTES && Version(Flat(chunks)[..MAX_FIRMWARE_BYTES]).Some?
    ensures Version(Fed(chunks)) == Version(Flat(chunks)[..MAX_FIRMWARE_BYTES])
  {
    BufferIsCappedPrefix(chunks);
    var head := Flat(chunks)[..MAX_FIRMWARE_BYTES];
    var rest := Fed(chunks)[MAX_FIRMWARE_BYTES..];
    assert Fed(chunks) == head + rest;
    VersionFromStable(head, rest, 0);
  }

  /** Once reported, the answer stays the same until the next query clears the buffer. */
  lemma {:induction false} AnswerNeverChanges(chunks: seq<Chunk>, later: seq<Chunk>)
    requires Version(Fed(chunks)).Some?
    ensures Version(Fed(chunks + later)) == Version(Fed(chunks))
    decreases |later|
  {
    if later == [] {
      assert chunks + later == chunks;
    } else {
      var n := |later| - 1;
      AnswerNeverChanges(chunks, later[..n]);
      assert (chunks + later)[..|chunks + later| - 1] == chunks + later[..n];
      if |Fed(chunks + later[..n])| < MAX_FIRMWARE_BYTES {
        VersionFromStable(Fed(chunks + later[..n]), later[n], 0);
      }
    }
  }
}
