/** The shared list of validation errors of the password-reset form and the
    set-like edits the form's validators make to it.

    An entry is identified by its message code and the translation namespace
    that resolves the message; two entries match when both fields are equal.
    The list itself is owned by the parent error container and mutated in
    place: ErrorCollection is that mutable list, and Removed, Inserted and
    Validated are the value-level specifications its edits are proved against.
 */
module ErrorList {

  /** One validation failure: `{ code, translationNamespace }`. */
  datatype ErrorEntry = ErrorEntry(code: string, translationNamespace: string)

  /** No two positions of the list hold matching entries. */
  predicate NoDuplicates(s: seq<ErrorEntry>) {
    forall i, j :: 0 <= i < j < |s| ==> s[i] != s[j]
  }

  /** The list with every entry matching `e` taken out (what lodash `remove`
      leaves in the array). Every other entry keeps its multiplicity. */
  function Removed(s: seq<ErrorEntry>, e: ErrorEntry): (r: seq<ErrorEntry>)
    ensures e !in r
    ensures forall x :: x in r <==> x in s && x != e
    ensures forall x :: x != e ==> multiset(r)[x] == multiset(s)[x]
    ensures |r| <= |s|
  {
    if s == [] then []
    else
      assert s == [s[0]] + s[1..];
      if s[0] == e then Removed(s[1..], e)
      else [s[0]] + Removed(s[1..], e)
  }

  /** The list after "push `e` unless some entry already matches it". */
  function Inserted(s: seq<ErrorEntry>, e: ErrorEntry): (r: seq<ErrorEntry>)
    ensures e in r
    ensures s <= r && |r| <= |s| + 1
  {
    if e in s then s else s + [e]
  }

  /** The list after one report of validity `valid` for the entry `e`. */
  function Validated(s: seq<ErrorEntry>, valid: bool, e: ErrorEntry): (r: seq<ErrorEntry>)
    ensures e in r <==> !valid
    ensures forall x :: x != e ==> (x in r <==> x in s)
  {
    if valid then Removed(s, e) else Inserted(s, e)
  }

  /** Removing distributes over concatenation: the kept entries stay in
      their original relative order. */
  lemma {:induction false} RemovedAppend(a: seq<ErrorEntry>, b: seq<ErrorEntry>, e: ErrorEntry)
    ensures Removed(a + b, e) == Removed(a, e) + Removed(b, e)
  {
    if a == [] {
      assert a + b == b;
    } else {
      assert (a + b)[0] == a[0];
      assert (a + b)[1..] == a[1..] + b;
      RemovedAppend(a[1..], b, e);
    }
  }

  /** Removing an entry that is not there leaves the list unchanged. */
  lemma {:induction false} RemovedAbsent(s: seq<ErrorEntry>, e: ErrorEntry)
    requires e !in s
    ensures Removed(s, e) == s
  {
    if s != [] {
      assert s == [s[0]] + s[1..];
      RemovedAbsent(s[1..], e);
    }
  }

  /** Removing keeps a duplicate-free list duplicate-free. */
  lemma {:induction false} RemovedNoDuplicates(s: seq<ErrorEntry>, e: ErrorEntry)
    requires NoDuplicates(s)
    ensures NoDuplicates(Removed(s, e))
  {
    if s != [] {
      assert NoDuplicates(s[1..]) by {
        forall i, j | 0 <= i < j < |s[1..]| ensures s[1..][i] != s[1..][j] {
          assert s[1..][i] == s[i + 1] && s[1..][j] == s[j + 1];
        }
      }
      RemovedNoDuplicates(s[1..], e);
      var t := Removed(s[1..], e);
      if s[0] != e {
        assert s[0] !in s[1..] by {
          forall k | 0 <= k < |s[1..]| ensures s[1..][k] != s[0] {
            assert s[1..][k] == s[k + 1];
          }
        }
        assert s[0] !in t;
        var r := [s[0]] + t;
        forall i, j | 0 <= i < j < |r| ensures r[i] != r[j] {
          if i == 0 {
            assert r[j] == t[j - 1];
          } else {
            assert r[i] == t[i - 1] && r[j] == t[j - 1];
          }
        }
      }
    }
  }

  /** Every edit of a report keeps the no-duplicates invariant. */
  lemma ValidatedNoDuplicates(s: seq<ErrorEntry>, valid: bool, e: ErrorEntry)
    requires NoDuplicates(s)
    ensures NoDuplicates(Validated(s, valid, e))
  {
    if valid {
      RemovedNoDuplicates(s, e);
    } else if e !in s {
      var r := s + [e];
      forall i, j | 0 <= i < j < |r| ensures r[i] != r[j] {
        if j == |s| {
          assert r[i] == s[i];
        } else {
          assert r[i] == s[i] && r[j] == s[j];
        }
      }
    }
  }

  /** A report touches only entries matching `e`: with those taken out, the
      list is what it was before, in the same order. */
  lemma ValidatedKeepsOthers(s: seq<ErrorEntry>, valid: bool, e: ErrorEntry)
    ensures Removed(Validated(s, valid, e), e) == Removed(s, e)
  {
    if valid {
      RemovedAbsent(Removed(s, e), e);
    } else if e !in s {
      RemovedAppend(s, [e], e);
      assert Removed([e], e) == [];
    }
  }

  /** Reporting the same validity twice leaves the list of reporting it once. */
  lemma ValidatedIdempotent(s: seq<ErrorEntry>, valid: bool, e: ErrorEntry)
    ensures Validated(Validated(s, valid, e), valid, e) == Validated(s, valid, e)
  {
    if valid {
      RemovedAbsent(Removed(s, e), e);
    }
  }

  /** A valid report for an entry that is not in the list changes nothing. */
  lemma ValidAbsentIsNoop(s: seq<ErrorEntry>, e: ErrorEntry)
    requires e !in s
    ensures Validated(s, true, e) == s
  {
    RemovedAbsent(s, e);
  }

  /** An invalid report leaves the list unchanged when the entry is already
      there, and otherwise appends it after the unchanged earlier entries. */
  lemma InvalidInsertsOnce(s: seq<ErrorEntry>, e: ErrorEntry)
    ensures e in s ==> Validated(s, false, e) == s
    ensures e !in s ==> Validated(s, false, e) == s + [e]
    ensures multiset(Validated(s, false, e))[e] == if e in s then multiset(s)[e] else 1
  {
  }

  /** An invalid report followed by a valid one restores a list that did not
      hold the entry. */
  lemma InvalidThenValidRestores(s: seq<ErrorEntry>, e: ErrorEntry)
    requires e !in s
    ensures Validated(Validated(s, false, e), true, e) == s
  {
    ValidatedKeepsOthers(s, false, e);
    RemovedAbsent(s, e);
  }

  /** The errors array shared between the form and the parent error container,
      edited in place by the form's validators. */
  class ErrorCollection {
    var entries: seq<ErrorEntry>

    constructor (initial: seq<ErrorEntry>)
      ensures entries == initial
    {
      entries := initial;
    }

    /** lodash `some(errors, error)`: a scan for a matching entry. */
    method Some(e: ErrorEntry) returns (found: bool)
      ensures found <==> e in entries
    {
      var s := entries;
      found := false;
      var i := 0;
      while i < |s| && !found
        invariant 0 <= i <= |s|
        invariant found ==> e in s
        invariant !found ==> forall k :: 0 <= k < i ==> s[k] != e
      {
        found := s[i] == e;
        i := i + 1;
      }
    }

    /** lodash `remove(errors, error)`: drops every matching entry in place,
        keeping the rest in order. */
    method Remove(e: ErrorEntry)
      modifies this
      ensures entries == Removed(old(entries), e)
    {
      var s := entries;
      var kept: seq<ErrorEntry> := [];
      var i := 0;
      while i < |s|
        invariant 0 <= i <= |s|
        invariant kept == Removed(s[..i], e)
      {
        assert s[..i + 1] == s[..i] + [s[i]];
        RemovedAppend(s[..i], [s[i]], e);
        if s[i] != e {
          kept := kept + [s[i]];
        }
        i := i + 1;
      }
      assert s[..|s|] == s;
      entries := kept;
    }

    /** `errors.push(error)`. */
    method Push(e: ErrorEntry)
      modifies this
      ensures entries == old(entries) + [e]
    {
      entries := entries + [e];
    }
  }
}
