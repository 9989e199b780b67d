/**
 The structure block of a flattened device tree as a stream of tags (section 5.4 of the
 Devicetree Specification), and the helpers that both region walkers share.
 */
module FdtTags {
  import opened Wrappers

  const FDT_ERR_NOTFOUND := -1
  const FDT_ERR_NOSPACE := -3
  const FDT_ERR_BADSTRUCTURE := -11
  const FDT_ERR_BADLAYOUT := -12

  const FDT_MAX_DEPTH := 32

  /** One tag. A property whose name offset does not point into the strings block has no name. */
  datatype Tag =
    | BeginNode(name: string)
    | EndNode
    | Prop(key: Option<string>, len: nat)
    | Nop
    | End

  /**
   A device tree: the readable tags of its structure block, and the offsets of that block (`base`),
   of the strings block and of the memory reserve map.
   */
  datatype Blob = Blob(tags: seq<Tag>, base: nat, structSize: nat, strings: nat, stringsSize: nat, rsvmap: nat)

  datatype Region = Region(offset: int, size: int)

  function Align4(n: nat): nat {
    (n + 3) / 4 * 4
  }

  /** Bytes taken by a tag together with its name or value. */
  function Size(t: Tag): (n: nat)
    ensures n >= 4
  {
    match t
    case BeginNode(name) => 4 + Align4(|name| + 1)
    case Prop(_, len) => 12 + Align4(len)
    case _ => 4
  }

  /** Offset of tag number `i` from the start of the structure block. */
  function Offset(tags: seq<Tag>, i: nat): nat
    requires i <= |tags|
  {
    if i == 0 then 0 else Offset(tags, i - 1) + Size(tags[i - 1])
  }

  lemma {:induction false} OffsetMonotone(tags: seq<Tag>, i: nat, j: nat)
    requires i <= j <= |tags|
    ensures Offset(tags, i) + 4 * (j - i) <= Offset(tags, j)
    decreases j
  {
    if i < j { OffsetMonotone(tags, i, j - 1); }
  }

  /** The path of a node called `name` below the node at `path`; the root is "/". */
  function Join(path: string, name: string): string {
    if path == "/" then path + name else path + "/" + name
  }

  /** What a path buffer holds after a node name is appended to it. */
  function Push(buffer: string, name: string): string {
    if |buffer| != 1 then buffer + "/" + name else buffer + name
  }

  /** What a path buffer holds after its last component is cut off. */
  function Pop(buffer: string): (r: string)
    ensures |r| <= |buffer| && r == buffer[..|r|]
  {
    if buffer == "" then ""
    else if buffer[|buffer| - 1] == '/' then buffer[..|buffer| - 1]
    else Pop(buffer[..|buffer| - 1])
  }

  lemma {:induction false} PopPlain(buffer: string, name: string)
    requires '/' !in name
    ensures Pop(buffer + name) == Pop(buffer)
  {
    if name == "" {
      assert buffer + name == buffer;
    } else {
      var shorter := name[..|name| - 1];
      assert (buffer + name)[..|buffer + name| - 1] == buffer + shorter;
      assert (buffer + name)[|buffer + name| - 1] == name[|name| - 1];
      PopPlain(buffer, shorter);
    }
  }

  lemma PopPush(buffer: string, name: string)
    requires '/' !in name
    requires |buffer| == 1 ==> buffer == "/"
    ensures Pop(Push(buffer, name)) == if |buffer| == 1 then "" else buffer
  {
    if |buffer| == 1 {
      PopPlain("/", name);
      assert "/"[..0] == "";
    } else {
      PopPlain(buffer + "/", name);
      assert (buffer + "/")[..|buffer|] == buffer;
    }
  }
}
