/**
 * The backing storage: Rust's growable `Vec<T>`, which the vector moves out of
 * itself, changes and moves back. Only the operations the dispatchers call are
 * modelled, as functions on sequences; out-of-range positions, where `Vec`
 * panics, are preconditions.
 */
module Storage {
  import opened Options

  /** `Vec::push`: the old elements, then `x`. */
  function VecPush<T>(s: seq<T>, x: T): (r: seq<T>)
    ensures |r| == |s| + 1 && r[|s|] == x
    ensures forall j :: 0 <= j < |s| ==> r[j] == s[j]
  {
    s + [x]
  }

  /** `Vec::pop`: nothing on an empty sequence, otherwise what pushing back restores. */
  function VecPop<T>(s: seq<T>): (r: Option<(seq<T>, T)>)
    ensures r.None? <==> s == []
    ensures r.Some? ==> VecPush(r.value.0, r.value.1) == s
  {
    if s == [] then None else Some((s[..|s| - 1], s[|s| - 1]))
  }

  /** `Vec::insert`: `x` lands at position `i`, the elements before stay, the ones after shift up by one. */
  function VecInsert<T>(s: seq<T>, i: nat, x: T): (r: seq<T>)
    requires i <= |s|
    ensures |r| == |s| + 1 && r[i] == x
    ensures forall j :: 0 <= j < i ==> r[j] == s[j]
    ensures forall j :: i <= j < |s| ==> r[j + 1] == s[j]
  {
    s[..i] + [x] + s[i..]
  }

  /** `Vec::remove`: returns the element at `i` and the rest, which inserting it back restores. */
  function VecRemove<T>(s: seq<T>, i: nat): (r: (seq<T>, T))
    requires i < |s|
    ensures |r.0| == |s| - 1 && r.1 == s[i]
    ensures VecInsert(r.0, i, r.1) == s
  {
    var rest := s[..i] + s[i + 1..];
    assert VecInsert(rest, i, s[i]) == s by {
      assert rest[..i] == s[..i];
      assert rest[i..] == s[i + 1..];
    }
    (rest, s[i])
  }

  /** `Vec::get`: the element at `i` when `i` is in range, nothing otherwise. */
  function VecGet<T>(s: seq<T>, i: nat): (r: Option<T>)
    ensures r.Some? <==> i < |s|
    ensures r.Some? ==> r.value == s[i]
  {
    if i < |s| then Some(s[i]) else None
  }

  /** Popping right after a push gives back the pushed element and the old sequence. */
  lemma PopAfterPush<T>(s: seq<T>, x: T)
    ensures VecPop(VecPush(s, x)) == Some((s, x))
  {
  }

  /** Removing right after an insert at the same position gives back the element and the old sequence. */
  lemma RemoveAfterInsert<T>(s: seq<T>, i: nat, x: T)
    requires i <= |s|
    ensures VecRemove(VecInsert(s, i, x), i) == (s, x)
  {
    var t := VecInsert(s, i, x);
    assert t[..i] == s[..i];
    assert t[i + 1..] == s[i..];
    assert t[..i] + t[i + 1..] == s;
  }

  /** Inserting at the end is pushing. */
  lemma InsertAtEndIsPush<T>(s: seq<T>, x: T)
    ensures VecInsert(s, |s|, x) == VecPush(s, x)
  {
  }
}
