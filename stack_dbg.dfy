/**
 * The bounded debug stack of src/stack_dbg.c: a 64-entry array of
 * (line, function name) records and the index of the first free slot.
 * Overflow and underflow are only reported, never prevented; the report
 * is returned as a flag, and what the C code would print is returned as
 * a sequence of lines.
 */
module StackDbg {
  import opened Bits

  const STACK_SIZE: int := 64

  /** struct stack_entry; a NULL name (the zero-initialised array) is the empty string. */
  datatype Entry = Entry(line: u32, functionName: string)

  /** What printf_stack prints: the header, then one line per entry. */
  datatype Line = Header | EntryLine(indent: string, entry: Entry)

  /** i blanks. */
  function Spaces(i: nat): (r: string)
    ensures |r| == i && forall k :: 0 <= k < i ==> r[k] == ' '
  {
    if i == 0 then "" else Spaces(i - 1) + " "
  }

  /** The index after pop_stack_entry(cnt): lowered by cnt unless that would go below 0. */
  function PopIdx(idx: int, cnt: int): (r: int)
    ensures idx - cnt >= 0 ==> r == idx - cnt
    ensures idx - cnt < 0 ==> r == idx
    ensures idx >= 0 ==> r >= 0
    ensures idx >= 0 && cnt < 0 ==> r > idx
  {
    if idx - cnt >= 0 then idx - cnt else idx
  }

  /** Popping what was just pushed returns to the old index, for any number pushed. */
  lemma PopAfterPushes(idx: int, n: nat)
    requires idx >= 0
    ensures PopIdx(idx + n, n) == idx
  {}

  class DebugStack {
    /** stack[STACK_SIZE] */
    const stack: array<Entry>
    /** idx: the next free slot. */
    var idx: int

    ghost predicate Valid()
      reads this
    {
      stack.Length == STACK_SIZE
    }

    /** The zero-initialised globals. */
    constructor ()
      ensures Valid() && fresh(stack)
      ensures idx == 0
      ensures forall k :: 0 <= k < STACK_SIZE ==> stack[k] == Entry(0, "")
    {
      stack := new Entry[STACK_SIZE](_ => Entry(0, ""));
      idx := 0;
    }

    /**
     * push_stack_entry: the entry goes to the old index, which then moves up
     * by one; `overflow` is the report made once the index reaches the size.
     * The C code writes without a bounds check, so the slot must exist.
     */
    method Push(line: u32, functionName: string) returns (overflow: bool)
      requires Valid() && 0 <= idx < STACK_SIZE
      modifies this, stack
      ensures Valid()
      ensures stack[..] == old(stack[..])[old(idx) := Entry(line, functionName)]
      ensures idx == old(idx) + 1
      ensures overflow <==> idx >= STACK_SIZE
    {
      stack[idx] := Entry(line, functionName);
      idx := idx + 1;
      overflow := idx >= STACK_SIZE;
    }

    /**
     * pop_stack_entry: the index drops by cnt when that keeps it
     * non-negative, else nothing changes and `underflow` is reported.
     * No entry is touched.
     */
    method Pop(cnt: int) returns (underflow: bool)
      modifies this
      ensures idx == PopIdx(old(idx), cnt)
      ensures underflow <==> old(idx) - cnt < 0
    {
      if idx - cnt >= 0 {
        idx := idx - cnt;
        underflow := false;
      } else {
        underflow := true;
      }
    }

    /** printf_stack: the header, then entries 0 .. idx-1 in order, entry i indented by i blanks. */
    method Print() returns (out: seq<Line>)
      requires Valid() && idx <= STACK_SIZE
      ensures |out| == 1 + (if idx > 0 then idx else 0) && out[0] == Header
      ensures forall i :: 0 <= i < idx ==> out[i + 1] == EntryLine(Spaces(i), stack[i])
    {
      out := [Header];
      var i := 0;
      while i < idx
        invariant 0 <= i && (i == 0 || i <= idx)
        invariant |out| == 1 + i && out[0] == Header
        invariant forall k :: 0 <= k < i ==> out[k + 1] == EntryLine(Spaces(k), stack[k])
      {
        var indent := "";
        var j := 0;
        while j < i
          invariant 0 <= j <= i
          invariant indent == Spaces(j)
        {
          indent := indent + " ";
          j := j + 1;
        }
        out := out + [EntryLine(indent, stack[i])];
        i := i + 1;
      }
    }
  }
}
