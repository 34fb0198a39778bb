/** The disk-path registry of driver/axvm.c: the static table
    `vm_disk_images[VM_NUM_MAX][VM_DISK_IMAGE_PATH_MAX_LENGTH]`, one
    NUL-terminated path per VM id, where a first byte of 0 marks a free
    slot. */
module DiskRegistry {
  import opened Kernel

  const VM_NUM_MAX: nat := 16
  const PATH_MAX: nat := 64

  /** `strlen` of a row, stopped at the end of the row. */
  function CStrLen(s: seq<byte>): (n: nat)
    ensures n <= |s|
    ensures forall j :: 0 <= j < n ==> s[j] != 0
    ensures n < |s| ==> s[n] == 0
  {
    if |s| == 0 || s[0] == 0 then 0 else 1 + CStrLen(s[1..])
  }

  /** The C string a row holds. */
  function CPath(row: seq<byte>): (r: seq<byte>)
    ensures |r| <= |row| && r == row[..|r|]
    ensures forall j :: 0 <= j < |r| ==> r[j] != 0
    ensures |r| < |row| ==> row[|r|] == 0
  {
    row[..CStrLen(row)]
  }

  /** `copy_from_user(row, src, len)` where only the first `|user|` bytes at
      `src` are readable: those are copied, the rest of the `len` bytes are
      zero-filled (as the kernel does on a short copy), and bytes from `len`
      on keep their old values. */
  function CopiedInto(row: seq<byte>, user: seq<byte>, len: nat): (r: seq<byte>)
    requires len <= |row|
    ensures |r| == |row|
    ensures len <= |user| ==> r[..len] == user[..len]
    ensures r[len..] == row[len..]
  {
    seq(|row|, j requires 0 <= j < |row| =>
      if j < len then (if j < |user| then user[j] else 0) else row[j])
  }

  /** What `copy_from_user` returns: the number of bytes it could not copy. */
  function Uncopied(user: seq<byte>, len: nat): (n: nat)
    ensures n <= len
    ensures n == 0 <==> len <= |user|
    ensures n > 0 ==> |user| + n == len
  {
    if |user| >= len then 0 else len - |user|
  }

  /** Round trip of a path through a slot: a path of `len` non-NUL bytes,
      fully readable, stored into a row whose byte at `len` is NUL, reads
      back as exactly that path. */
  lemma StoredPathReadsBack(row: seq<byte>, user: seq<byte>, len: nat)
    requires len < |row| && row[len] == 0
    requires len <= |user|
    requires forall j :: 0 <= j < len ==> user[j] != 0
    ensures CPath(CopiedInto(row, user, len)) == user[..len]
  {
    var r := CopiedInto(row, user, len);
    assert r[len] == 0;
    assert CStrLen(r) == len;
  }

  /** A stored path that starts with a NUL byte (an empty path, or one whose
      first byte could not be read) leaves the slot looking free. */
  lemma EmptyCopyLeavesSlotFree(row: seq<byte>, user: seq<byte>, len: nat)
    requires 0 < len <= |row|
    requires user == [] || user[0] == 0
    ensures CopiedInto(row, user, len)[0] == 0
    ensures CPath(CopiedInto(row, user, len)) == []
  {
  }

  class DiskImageRegistry {
    /** `vm_disk_images`. */
    const slots: array2<byte>

    ghost predicate Valid()
      reads this
    {
      slots.Length0 == VM_NUM_MAX && slots.Length1 == PATH_MAX
    }

    /** A file-scope static starts out all zero. */
    constructor ()
      ensures Valid() && fresh(slots)
      ensures forall id :: 0 <= id < VM_NUM_MAX ==> Row(id) == seq(PATH_MAX, _ => 0)
    {
      slots := new byte[VM_NUM_MAX, PATH_MAX]((_, _) => 0);
    }

    /** `vm_disk_images[id]`. */
    function Row(id: nat): (r: seq<byte>)
      requires Valid() && id < VM_NUM_MAX
      reads this, slots
      ensures |r| == PATH_MAX
    {
      seq(PATH_MAX, j requires 0 <= j < PATH_MAX reads slots => slots[id, j])
    }

    ghost function Rows(): (rs: seq<seq<byte>>)
      requires Valid()
      reads this, slots
      ensures |rs| == VM_NUM_MAX
      ensures forall id :: 0 <= id < VM_NUM_MAX ==> rs[id] == Row(id)
    {
      seq(VM_NUM_MAX, id requires 0 <= id < VM_NUM_MAX reads this, slots => Row(id))
    }

    /** `vm_disk_images[id][0] != 0`. */
    predicate Occupied(id: nat)
      requires Valid() && id < VM_NUM_MAX
      reads this, slots
    {
      slots[id, 0] != 0
    }

    /** `copy_from_user(vm_disk_images[id], src, len)`, with `user` the
        readable bytes at `src`. */
    method Store(id: nat, user: seq<byte>, len: nat) returns (uncopied: nat)
      requires Valid() && id < VM_NUM_MAX && len <= PATH_MAX
      modifies slots
      ensures Valid()
      ensures Rows() == old(Rows())[id := CopiedInto(old(Row(id)), user, len)]
      ensures uncopied == Uncopied(user, len)
    {
      ghost var before := Rows();
      forall j | 0 <= j < len {
        slots[id, j] := if j < |user| then user[j] else 0;
      }
      assert Row(id) == CopiedInto(before[id], user, len);
      assert forall i :: 0 <= i < VM_NUM_MAX && i != id ==> Row(i) == before[i];
      uncopied := Uncopied(user, len);
    }
  }
}
