/** The data part of a copy up: clone the file, or copy it chunk by chunk. */
module CopyData {
  import opened Errno

  const CHUNK_SIZE: nat := 0x10_0000

  function Min(a: int, b: int): int {
    if a < b then a else b
  }

  /** One splice from `src` at `pos`: some bytes, fewer than asked for perhaps; none only at
      the end of the file; or an error. */
  method Splice(src: seq<char>, pos: nat, len: nat) returns (bytes: int)
    requires 0 < len
    ensures bytes <= len
    ensures bytes == 0 ==> pos >= |src|
    ensures bytes > 0 ==> pos + bytes <= |src|
  {
    var broken: bool := *;
    if broken {
      return -5;
    }
    if pos >= |src| {
      return 0;
    }
    bytes := *;
    if bytes < 1 || bytes > len || pos + bytes > |src| {
      bytes := 1;
    }
  }

  /** Copy the first `len` bytes.  Success means the new file holds exactly the part of them the
      old file has: all `len` bytes iff the old file is that long. */
  method CopyUpData(src: seq<char>, len: nat) returns (err: Errno, data: seq<char>)
    ensures err == OK ==> data == src[..Min(len, |src|)]
    ensures err == OK ==> (|data| == len <==> len <= |src|)
    ensures data <= src
  {
    data := [];
    if len == 0 {
      return OK, data;
    }
    var openFails: bool := *;
    if openFails {
      return EIO, data;
    }
    var cloned: bool := *;
    if cloned && len <= |src| {
      data := src[..len];
    } else {
      var left, oldPos := len, 0;
      while left > 0
        invariant 0 <= left <= len && oldPos == len - left && oldPos <= |src|
        invariant data == src[..oldPos]
      {
        var thisLen := Min(CHUNK_SIZE, left);
        var killed: bool := *;
        if killed {
          return EINTR, data;
        }
        var bytes := Splice(src, oldPos, thisLen);
        if bytes < 0 {
          return EIO, data;
        }
        if bytes == 0 {
          break;
        }
        data := data + src[oldPos..oldPos + bytes];
        oldPos := oldPos + bytes;
        left := left - bytes;
      }
    }
    var syncFails: bool := *;
    err := if syncFails then EIO else OK;
  }

  /** For instance: of a file that has become shorter than it was, only that much is copied, and the
      copy up does not fail for it. */
  method ShortFileExample() returns (err: Errno, data: seq<char>)
    ensures err == OK ==> data == "ab" && |data| < 3
  {
    err, data := CopyUpData("ab", 3);
    assert "ab"[..2] == "ab";
  }
}
