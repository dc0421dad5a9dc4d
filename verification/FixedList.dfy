/** The fixed-capacity list: an array of optional entries edited in place. */
module FixedLists {
  import opened Wrappers

  class FixedList<T> {
    const entries: array<Option<T>>
    var len: nat

    /** The first `len` slots are filled and the rest are empty. */
    ghost predicate Valid()
      reads this, entries
    {
      && len <= entries.Length
      && (forall i | 0 <= i < len :: entries[i].Some?)
      && (forall i | len <= i < entries.Length :: entries[i].None?)
    }

    ghost function Contents(): (s: seq<T>)
      requires Valid()
      reads this, entries
      ensures |s| == len && forall i | 0 <= i < len :: s[i] == entries[i].value
    {
      seq(len, i requires 0 <= i < len && Valid() reads this, entries => entries[i].value)
    }

    constructor (capacity: nat)
      ensures Valid() && fresh(entries) && entries.Length == capacity && Contents() == []
    {
      entries := new Option<T>[capacity](_ => None);
      len := 0;
    }

    method Clear()
      requires Valid()
      modifies this, entries
      ensures Valid() && Contents() == []
    {
      for i := 0 to entries.Length
        invariant forall k | 0 <= k < i :: entries[k].None?
      {
        entries[i] := None;
      }
      len := 0;
    }

    method Get(index: nat) returns (r: Option<T>)
      requires Valid()
      ensures r == if index < len then Some(Contents()[index]) else None
    {
      if index >= len {
        return None;
      }
      return entries[index];
    }

    /** Overwrite an entry that exists. */
    method Set(index: nat, value: T)
      requires Valid() && index < len
      modifies entries
      ensures Valid() && Contents() == old(Contents())[index := value]
    {
      entries[index] := Some(value);
    }

    /** Append; a full list is left as it was. */
    method Push(value: T) returns (ok: bool)
      requires Valid()
      modifies this, entries
      ensures Valid() && ok == (old(len) < entries.Length)
      ensures Contents() == if ok then old(Contents()) + [value] else old(Contents())
    {
      if len == entries.Length {
        return false;
      }
      entries[len] := Some(value);
      len := len + 1;
      return true;
    }

    /** Insert before `index`, shifting the tail up; a full list or a bad index changes nothing. */
    method Insert(index: nat, value: T) returns (ok: bool)
      requires Valid()
      modifies this, entries
      ensures Valid() && ok == (old(len) < entries.Length && index <= old(len))
      ensures Contents() == if ok then old(Contents())[..index] + [value] + old(Contents())[index..]
                            else old(Contents())
    {
      if len == entries.Length || index > len {
        return false;
      }
      var i := len;
      while i > index
        modifies entries
        invariant index <= i <= len
        invariant forall k | 0 <= k < entries.Length && (k <= i || k > len) ::
                    entries[k] == if k == i then None else old(entries[k])
        invariant forall k | i < k <= len :: entries[k] == old(entries[k - 1])
      {
        i := i - 1;
        entries[i + 1] := entries[i];
        entries[i] := None;
      }
      entries[index] := Some(value);
      len := len + 1;
      return true;
    }

    /** Take an entry out, shifting the tail down. */
    method Remove(index: nat) returns (r: Option<T>)
      requires Valid()
      modifies this, entries
      ensures Valid()
      ensures r == if index < old(len) then Some(old(Contents())[index]) else None
      ensures Contents() == if index < old(len) then old(Contents())[..index] + old(Contents())[index + 1..]
                            else old(Contents())
    {
      if index >= len {
        return None;
      }
      r := entries[index];
      entries[index] := None;
      for i := index to len - 1
        modifies entries
        invariant forall k | 0 <= k < entries.Length ::
                    entries[k] == if k < index then old(entries[k])
                                  else if k < i then old(entries[k + 1])
                                  else if k == i then None
                                  else old(entries[k])
      {
        entries[i] := entries[i + 1];
        entries[i + 1] := None;
      }
      entries[len - 1] := None;
      len := len - 1;
    }
  }
}
