/** Result shapes shared by the whole model.

    DIRAC reports outcomes as dictionaries built by S_OK / S_ERROR: an S_OK
    dictionary carries 'OK' and 'Value', an S_ERROR dictionary carries only
    'OK' and 'Message'. Python exceptions that the code does not catch are
    modelled as values too, so that every branch of the source is visible.
 */
module Base {

  datatype Option<+T> = None | Some(value: T)

  /** S_OK(value) / S_ERROR(message). */
  datatype Result<+T> = Ok(value: T) | Err(message: string)

  /** The uncaught Python exceptions the modelled code can raise. */
  datatype PyException =
    | KeyError        // dictionary lookup of an absent key
    | IndexError      // list index out of range
    | AttributeError  // attribute or method that the object does not define
    | TypeError       // wrong argument count, or an operation on the wrong type
    | NameError       // name not bound in the enclosing scope
    | ValueError      // int() of a non-numeric string
    | RuntimeError    // dictionary changed size during iteration
    | SystemExit      // DIRAC.abort

  /** Outcome of a piece of Python code: it returns a value or raises. An
      exception propagates through `:-` like through Python frames. */
  datatype Py<+T> = Returned(value: T) | Raised(exception: PyException)
  {
    predicate IsFailure() {
      Raised?
    }

    function PropagateFailure<U>(): Py<U>
      requires Raised?
    {
      Raised(exception)
    }

    function Extract(): T
      requires Returned?
    {
      value
    }
  }

  /** `d[key]` for an optional entry: KeyError when it is absent. */
  function Need<T>(entry: Option<T>): (p: Py<T>)
    ensures p.Returned? <==> entry.Some?
    ensures entry.Some? ==> p.value == entry.value
    ensures entry.None? ==> p == Raised(KeyError)
  {
    match entry
    case Some(v) => Returned(v)
    case None => Raised(KeyError)
  }

  /** `d[key]` on a dictionary of strings. */
  function Lookup<K(==), V>(d: map<K, V>, key: K): (p: Py<V>)
    ensures p.Returned? <==> key in d
    ensures key in d ==> p.value == d[key]
    ensures key !in d ==> p == Raised(KeyError)
  {
    if key in d then Returned(d[key]) else Raised(KeyError)
  }

  /** Which reading of the code a member follows: what it does, or what it
      is evidently meant to do where the two differ. */
  datatype Mode = AsWritten | Intended

  /** Python's `result['Value']` on a DIRAC result dictionary. */
  function ValueOf<T>(r: Result<T>): (p: Py<T>)
    ensures p.Returned? <==> r.Ok?
    ensures r.Ok? ==> p.value == r.value
    ensures r.Err? ==> p == Raised(KeyError)
  {
    match r
    case Ok(v) => Returned(v)
    case Err(_) => Raised(KeyError)
  }

  /** What a remote shell call returns on success: (exit code, stdout, stderr). */
  datatype Triple = Triple(exit: int, stdout: string, stderr: string)

  /** `s` is `t` with some elements left out, the rest in their order. */
  predicate IsSubsequence<T(==)>(s: seq<T>, t: seq<T>)
    decreases |t|
  {
    |s| == 0 || (|t| > 0 && ((s[0] == t[0] && IsSubsequence(s[1..], t[1..])) || IsSubsequence(s, t[1..])))
  }

  /** Every sequence is a subsequence of itself. */
  lemma {:induction false} SubsequenceSelf<T>(s: seq<T>)
    ensures IsSubsequence(s, s)
    decreases |s|
  {
    if |s| > 0 {
      SubsequenceSelf(s[1..]);
    }
  }

  /** Leaving out the head gives a subsequence. */
  lemma SubsequenceOfTail<T>(t: seq<T>)
    requires |t| > 0
    ensures IsSubsequence(t[1..], t)
  {
    SubsequenceSelf(t[1..]);
  }

  /** A subsequence keeps only elements of the sequence it comes from. */
  lemma {:induction false} SubsequenceMembers<T>(s: seq<T>, t: seq<T>)
    requires IsSubsequence(s, t)
    ensures forall x :: x in s ==> x in t
    decreases |t|
  {
    if |s| > 0 {
      if s[0] == t[0] && IsSubsequence(s[1..], t[1..]) {
        SubsequenceMembers(s[1..], t[1..]);
        assert forall x :: x in s ==> x == s[0] || x in s[1..];
      } else {
        SubsequenceMembers(s, t[1..]);
      }
    }
  }

  /** A list comprehension `[x for x in s if keep(x)]`. */
  function Filter<T(==, !new)>(s: seq<T>, keep: T -> bool): (kept: seq<T>)
    ensures IsSubsequence(kept, s)
    ensures forall x :: x in kept <==> x in s && keep(x)
  {
    if |s| == 0 then []
    else
      var rest := Filter(s[1..], keep);
      assert forall x :: x in s <==> x == s[0] || x in s[1..];
      if keep(s[0]) then
        assert ([s[0]] + rest)[1..] == rest;
        [s[0]] + rest
      else rest
  }

  /** The first element a filter keeps is the first element of `s` it
      accepts. */
  lemma {:induction false} FilterFirst<T(!new)>(pre: seq<T>, x: T, post: seq<T>, keep: T -> bool)
    requires forall y :: y in pre ==> !keep(y)
    requires keep(x)
    ensures |Filter(pre + [x] + post, keep)| > 0
    ensures Filter(pre + [x] + post, keep)[0] == x
    decreases |pre|
  {
    var s := pre + [x] + post;
    if |pre| == 0 {
      assert s[0] == x && s[1..] == post;
    } else {
      assert s[0] == pre[0] && s[1..] == pre[1..] + [x] + post;
      FilterFirst(pre[1..], x, post, keep);
    }
  }

  /** A filter that accepts every element keeps the sequence whole. */
  lemma {:induction false} FilterKeepsAll<T(!new)>(s: seq<T>, keep: T -> bool)
    requires forall i :: 0 <= i < |s| ==> keep(s[i])
    ensures Filter(s, keep) == s
    decreases |s|
  {
    if |s| > 0 {
      FilterKeepsAll(s[1..], keep);
      assert [s[0]] + s[1..] == s;
    }
  }
}
