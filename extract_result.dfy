/**
 * ExtractResult: the text extracted from one source file and the set of its
 * tokens. The token set is a LinkedHashSet: no duplicates, iteration in the
 * order of first insertion. It is modelled as a duplicate-free sequence that
 * AddToken updates in place.
 */
module Extraction {
  import opened Lang
  import opened Strings

  predicate NoDuplicates(s: seq<string>) {
    forall i, j :: 0 <= i < j < |s| ==> s[i] != s[j]
  }

  /** LinkedHashSet.add on the contents in iteration order. */
  function Add(s: seq<string>, t: string): (r: seq<string>)
    ensures t in r
    ensures forall x :: x in r <==> x in s || x == t
    ensures |s| <= |r| && r[..|s|] == s
    ensures |r| == if t in s then |s| else |s| + 1
    ensures NoDuplicates(s) ==> NoDuplicates(r)
  {
    if t in s then s else s + [t]
  }

  /** The contents after adding each token of `ts` in turn to an empty set. */
  function Collect(ts: seq<string>): seq<string>
  {
    if ts == [] then [] else Add(Collect(ts[..|ts| - 1]), ts[|ts| - 1])
  }

  /** Position of the first occurrence of `x` in `ts`. */
  function FirstIndex(ts: seq<string>, x: string): (i: nat)
    requires x in ts
    ensures i < |ts| && ts[i] == x
    ensures forall j :: 0 <= j < i ==> ts[j] != x
  {
    if ts[0] == x then 0 else 1 + FirstIndex(ts[1..], x)
  }

  lemma FirstIndexAppend(ts: seq<string>, t: string, x: string)
    requires x in ts
    ensures FirstIndex(ts + [t], x) == FirstIndex(ts, x)
  {
    var i, k := FirstIndex(ts + [t], x), FirstIndex(ts, x);
    assert (ts + [t])[k] == x;
    assert i <= k;
    assert i < |ts| && ts[i] == x;
  }

  /**
   * Adding tokens one by one keeps each distinct token once, at the position
   * of its first insertion: the contents are ordered by first occurrence.
   */
  lemma {:induction false} CollectOrder(ts: seq<string>)
    ensures NoDuplicates(Collect(ts))
    ensures forall x :: x in Collect(ts) <==> x in ts
    ensures forall i, j :: 0 <= i < j < |Collect(ts)| ==>
      FirstIndex(ts, Collect(ts)[i]) < FirstIndex(ts, Collect(ts)[j])
  {
    if ts != [] {
      var init, t := ts[..|ts| - 1], ts[|ts| - 1];
      assert ts == init + [t];
      CollectOrder(init);
      var c := Collect(init);
      forall x | x in init
        ensures FirstIndex(ts, x) == FirstIndex(init, x)
      {
        FirstIndexAppend(init, t, x);
      }
      if t !in init {
        assert FirstIndex(ts, t) == |init|;
      }
    }
  }

  class ExtractResult {
    const sourceFile: File
    const text: string
    var tokens: seq<string>

    ghost predicate Valid()
      reads this
    {
      !IsBlank(NonNull(text)) && NoDuplicates(tokens)
    }

    /** The private constructor; only Of calls it. */
    constructor (sourceFile: File, text: string)
      requires !IsBlank(NonNull(text))
      ensures Valid()
      ensures this.sourceFile == sourceFile && this.text == text && tokens == []
    {
      this.sourceFile := sourceFile;
      this.text := text;
      tokens := [];
    }

    /** A result for a non-null file and non-blank text, with no tokens yet. */
    static method Of(sourceFile: Nullable<File>, text: JString) returns (r: Result<ExtractResult>)
      ensures sourceFile.Null? ==> r == Err(NullSourceFile)
      ensures sourceFile.NonNull? && IsBlank(text) ==> r == Err(BlankText)
      ensures r.Ok? <==> sourceFile.NonNull? && !IsBlank(text)
      ensures r.Ok? ==> fresh(r.value) && r.value.Valid() && r.value.tokens == []
      ensures r.Ok? ==> r.value.sourceFile == sourceFile.value && r.value.text == text.value
    {
      if sourceFile.Null? {
        return Err(NullSourceFile);
      }
      if IsBlank(text) {
        return Err(BlankText);
      }
      var x := new ExtractResult(sourceFile.value, text.value);
      return Ok(x);
    }

    /** Adds a token unless present; true iff it was added. */
    method AddToken(token: string) returns (added: bool)
      requires Valid()
      modifies this
      ensures Valid()
      ensures added <==> token !in old(tokens)
      ensures tokens == Add(old(tokens), token)
    {
      added := token !in tokens;
      if added {
        tokens := tokens + [token];
      }
    }

    /**
     * The tokens joined by single spaces in insertion order; "" when there
     * are none. Splitting it at spaces gives the tokens back whenever no
     * token contains a space.
     */
    function TokenString(): (r: string)
      reads this
      ensures tokens == [] ==> r == ""
      ensures tokens != [] && (forall k :: 0 <= k < |tokens| ==> ' ' !in tokens[k]) ==>
        Split(r, ' ') == tokens
    {
      var r := Join(tokens, ' ');
      assert tokens != [] && (forall k :: 0 <= k < |tokens| ==> ' ' !in tokens[k]) ==>
        Split(r, ' ') == tokens by {
        if tokens != [] && (forall k :: 0 <= k < |tokens| ==> ' ' !in tokens[k]) {
          SplitJoin(tokens, ' ');
        }
      }
      r
    }
  }
}
