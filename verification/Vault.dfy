/** core/brain/vault.py: writing and reading notes. */
module Vault {
  import opened Wrappers

  const MAX_WRITE_BYTES := 1_048_576

  function CharBytes(c: char): nat {
    var n := c as int;
    if n < 0x80 then 1 else if n < 0x800 then 2 else if n < 0x10000 then 3 else 4
  }

  /** Length of `s.encode("utf-8")`. */
  function Utf8Len(s: string): nat {
    if s == "" then 0 else Utf8Len(s[..|s| - 1]) + CharBytes(s[|s| - 1])
  }

  type Notes = map<string, string>

  /** The file content `write` would leave, or None when it raises ValueError. */
  function NewContent(notes: Notes, path: string, content: string, append: bool): Option<string> {
    if Utf8Len(content) > MAX_WRITE_BYTES then None
    else if append && path in notes then
      var whole := notes[path] + "\n\n" + content;
      if Utf8Len(whole) > MAX_WRITE_BYTES then None else Some(whole)
    else Some(content)
  }

  function Written(notes: Notes, path: string, content: string, append: bool): Notes {
    var c := NewContent(notes, path, content, append);
    if c.None? then notes else notes[path := c.value]
  }

  /** UTF-8 takes one to four bytes a character, by its code point, and the characters of a text add up. */
  lemma Utf8LenOfChar(c: char)
    ensures Utf8Len([c]) ==
              if c as int < 128 then 1 else if c as int < 2048 then 2 else if c as int < 65536 then 3 else 4
  {
    assert [c][..0] == "";
  }

  lemma {:induction false} Utf8LenAdds(a: string, b: string)
    ensures Utf8Len(a + b) == Utf8Len(a) + Utf8Len(b)
  {
    if b == "" {
      assert a + b == a;
    } else {
      Utf8LenAdds(a, b[..|b| - 1]);
      assert (a + b)[..|a + b| - 1] == a + b[..|b| - 1];
    }
  }

  class Folder {
    var notes: Notes

    constructor ()
      ensures notes == map[]
    {
      notes := map[];
    }

    /** All or nothing: a refused write leaves every note as it was, an append keeps the old content in front. */
    method Write(path: string, content: string, append: bool) returns (ok: bool)
      modifies this
      ensures notes == Written(old(notes), path, content, append)
      ensures ok <==> NewContent(old(notes), path, content, append).Some?
      ensures ok <==> Utf8Len(content) <= 1_048_576 &&
                      (append && path in old(notes) ==> Utf8Len(old(notes)[path] + "\n\n" + content) <= 1_048_576)
      ensures ok ==> notes == old(notes)[path :=
                       if append && path in old(notes) then old(notes)[path] + "\n\n" + content else content]
      ensures !ok ==> notes == old(notes)
    {
      var data := content;
      if Utf8Len(data) > MAX_WRITE_BYTES { return false; }
      if append && path in notes {
        data := notes[path] + "\n\n" + data;
        if Utf8Len(data) > MAX_WRITE_BYTES { return false; }
      }
      notes := notes[path := data];
      ok := true;
    }
  }
}
