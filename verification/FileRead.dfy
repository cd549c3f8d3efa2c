/** An open source file, read in bounded chunks. Every call to the system may fail, and a read may return less than was asked for. */
module FileRead {
  import opened Common
  import opened ManualRecord

  datatype Chunked = AtEnd | Piece(offset: nat, data: Bytes) | Broken

  /** What a round of reading meets: whether the file is still the one offered, and how much is read, if the read succeeds. */
  datatype Answer = Answer(sameBefore: bool, read: Option<nat>, sameAfter: bool)

  predicate Serves(a: Answer) {
    a.sameBefore && a.read.Some? && a.read.value > 0 && a.sameAfter
  }

  class OutgoingFile {
    const source: Bytes
    const start: nat
    const size: nat
    var offset: nat
    var position: nat
    var hashed: Bytes
    var cancelled: bool

    /** What was hashed is what lies between where the file was opened and where the next chunk begins. */
    ghost predicate Valid()
      reads this
    {
      && start <= offset <= size && position == offset
      && (offset > start ==> offset <= |source|)
      && hashed == if offset > start then source[start..offset] else []
    }

    ghost function View(): Outgoing
      reads this
    {
      Outgoing(offset, hashed)
    }

    constructor (source: Bytes, start: nat, size: nat)
      requires start <= size
      ensures Valid() && this.source == source && this.start == start && this.size == size && View() == Outgoing(start, []) && !cancelled
    {
      this.source, this.start, this.size := source, start, size;
      offset, position, hashed, cancelled := start, start, [], false;
    }

    /** One read at the file's own position: any part of what is there, up to the limit, or a failure. */
    method Read(limit: nat, answer: Option<nat>) returns (data: Option<Bytes>)
      modifies this`position
      ensures data.Some? <==> answer.Some?
      ensures data.Some? ==>
        && |data.value| <= limit && position == old(position) + |data.value|
        && (data.value != [] ==> position <= |source| && data.value == source[old(position)..position])
        && (data.value == [] ==> answer.value == 0 || limit == 0 || old(position) >= |source|)
    {
      if answer.None? {
        return None;
      }
      var available := if position < |source| then |source| - position else 0;
      var n := Min(answer.value, Min(limit, available));
      if n == 0 {
        return Some([]);
      }
      data := Some(source[position..position + n]);
      position := position + n;
    }

    /**
     Exactly the next bytes of the file, up to the limit and the file's size, however the reads come in
     pieces; it fails only if it is asked for a bad length, the file is cancelled, changed or too short, or
     a read fails. `first` says whether the file is still the one offered, `answers` what each read meets.
     */
    method NextChunkBounded(maxLength: nat, first: bool, answers: nat -> Answer) returns (r: Chunked)
      requires Valid()
      modifies this`offset, this`position, this`hashed
      ensures !cancelled && old(offset) == size ==> r == AtEnd
      ensures r.AtEnd? ==> !cancelled && old(offset) == size && View() == old(View()) && Valid()
      ensures r.Piece? ==> !cancelled && 0 < maxLength <= MAX_CHUNK && Valid() && r.offset == old(offset) && 0 < |r.data| <= maxLength
      ensures r.Piece? ==> NextChunk(old(View()), size, maxLength, source, true) == Some((View(), r.data))
      ensures r.Broken? ==> View() == old(View())
      ensures r.Broken? ==>
        || cancelled || maxLength == 0 || maxLength > MAX_CHUNK || !first
        || size > |source| || exists i: nat :: i < maxLength && !Serves(answers(i))
    {
      if cancelled {
        return Broken;
      }
      if offset == size {
        return AtEnd;
      }
      if maxLength == 0 || maxLength > MAX_CHUNK {
        return Broken;
      }
      if !first {
        return Broken;
      }
      var requested := Min(size - offset, maxLength);
      var data: Bytes := [];
      var count := 0;
      while |data| < requested
        invariant offset == old(offset) && hashed == old(hashed)
        invariant count <= |data| <= requested && position == offset + |data|
        invariant data != [] ==> position <= |source| && data == source[offset..position]
        decreases requested - |data|
      {
        var answer := answers(count);
        if !answer.sameBefore {
          assert !Serves(answers(count));
          return Broken;
        }
        var read := Read(requested - |data|, answer.read);
        if read.None? || read.value == [] {
          assert size > |source| || !Serves(answers(count));
          return Broken;
        }
        data := data + read.value;
        if !answer.sameAfter {
          assert !Serves(answers(count));
          return Broken;
        }
        count := count + 1;
      }
      r := Piece(offset, data);
      offset := offset + |data|;
      hashed := hashed + data;
    }

    /** The digest of everything from where the file was opened to its end, and of nothing less. */
    method FinalizeDigest<Digest>(hash: Bytes -> Digest, same: bool) returns (digest: Option<Digest>)
      requires Valid()
      ensures digest.Some? <==> offset == size && same
      ensures digest.Some? && start < size ==> size <= |source| && digest.value == hash(source[start..size])
      ensures digest.Some? && start == size ==> digest.value == hash([])
    {
      if offset != size {
        return None;
      }
      if !same {
        return None;
      }
      return Some(hash(hashed));
    }
  }
}
