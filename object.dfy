// Heap string objects and the VM's list of every allocated object
// (src/object.c).
module Objects {

  newtype uint32 = x: int | 0 <= x < 0x1_0000_0000

  /** ObjType: the only kind of heap object in this version. */
  datatype ObjType = OBJ_STRING

  /** A heap string. Every field is written once, when the object is
      allocated, and never again. `hash` is read by the hash table but no
      allocation path in this version computes it, so it is left
      unconstrained. */
  class ObjString {
    const objType: ObjType
    const next: ObjString?
    const length: nat
    const chars: array<char>
    const hash: uint32

    /** The field stores of allocate_object (type tag, link to the old list
        head) and of allocate_string (length, buffer). */
    constructor (next: ObjString?, chars: array<char>, length: nat)
      ensures this.objType == OBJ_STRING
      ensures this.next == next && this.chars == chars && this.length == length
    {
      this.objType := OBJ_STRING;
      this.next := next;
      this.chars := chars;
      this.length := length;
    }

    /** The `length` characters of the string fit in its buffer. */
    predicate WellFormed() {
      length <= chars.Length
    }
  }

  /** `list` is the chain of objects reached from `head` through `next`,
      ending in null. */
  ghost predicate Linked(head: ObjString?, list: seq<ObjString>)
    decreases |list|
  {
    if list == [] then head == null
    else head == list[0] && Linked(list[0].next, list[1..])
  }

  /** The VM's `objects` field: the head of an intrusive list through
      `next`, newest first. `Objects` is the list as a sequence. */
  class Heap {
    var objects: ObjString?
    ghost var Objects: seq<ObjString>

    ghost predicate Valid()
      reads this
    {
      Linked(objects, Objects)
    }

    constructor Init()
      ensures Valid() && objects == null && Objects == []
    {
      objects := null;
      Objects := [];
    }

    /** allocate_string (with allocate_object): a new string object becomes
        the head of the list, the old list its tail. */
    method AllocateString(chars: array<char>, length: nat) returns (s: ObjString)
      requires Valid()
      modifies this
      ensures Valid() && fresh(s)
      ensures s.objType == OBJ_STRING && s.chars == chars && s.length == length
      ensures s.next == old(objects)
      ensures objects == s && Objects == [s] + old(Objects)
    {
      s := new ObjString(objects, chars, length);
      objects := s;
      Objects := [s] + Objects;
    }

    /** take_string: adopt the caller's buffer as it is, without copying and
        without looking for an equal string already allocated. */
    method TakeString(chars: array<char>, length: nat) returns (s: ObjString)
      requires Valid()
      requires length <= chars.Length
      modifies this
      ensures Valid() && fresh(s)
      ensures s.objType == OBJ_STRING && s.chars == chars && s.length == length
      ensures s.WellFormed()
      ensures Objects == [s] + old(Objects)
    {
      s := AllocateString(chars, length);
    }

    /** copy_string: copy the first `length` characters into a fresh buffer
        of `length + 1` with a NUL at the end, and allocate a new string
        around it; an equal string already allocated is not looked for. */
    method CopyString(chars: seq<char>, length: nat) returns (s: ObjString)
      requires Valid()
      requires length <= |chars|
      modifies this
      ensures Valid() && fresh(s) && fresh(s.chars)
      ensures s.objType == OBJ_STRING && s.length == length && s.WellFormed()
      ensures s.chars.Length == length + 1
      ensures s.chars[..length] == chars[..length] && s.chars[length] == '\0'
      ensures Objects == [s] + old(Objects)
    {
      var heapChars := new char[length + 1](i => if 0 <= i < length then chars[i] else '\0');
      s := AllocateString(heapChars, length);
    }
  }
}
