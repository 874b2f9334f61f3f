/** Names of the archive entries: `name.split('.')`, the last piece popped as
    the extension, the rest joined back with '.', and "_resize." between. */
module Naming {
  import opened Wrappers

  /** String.prototype.split('.'): the pieces between the dots, always at least one. */
  function Split(s: string): (r: seq<string>)
    ensures |r| >= 1
    ensures forall i :: 0 <= i < |r| ==> '.' !in r[i]
  {
    if |s| == 0 then [""]
    else
      var rest := Split(s[1..]);
      if s[0] == '.' then [""] + rest
      else [[s[0]] + rest[0]] + rest[1..]
  }

  /** Array.prototype.join('.'): the first piece starts the result. */
  function Join(parts: seq<string>): (r: string)
    ensures |parts| == 0 ==> r == ""
    ensures |parts| > 0 ==> parts[0] <= r
  {
    if |parts| == 0 then ""
    else if |parts| == 1 then parts[0]
    else parts[0] + "." + Join(parts[1..])
  }

  /** join('.') ends with the last piece. */
  lemma {:induction false} JoinEndsWithLast(parts: seq<string>)
    requires |parts| > 0
    ensures var r, last := Join(parts), parts[|parts| - 1];
      |last| <= |r| && r[|r| - |last|..] == last
  {
    if |parts| > 1 {
      JoinEndsWithLast(parts[1..]);
    }
  }

  /** The position of the last '.' in s, if any. */
  function LastDot(s: string): (r: Option<nat>)
    ensures r.None? <==> '.' !in s
    ensures r.Some? ==> r.value < |s| && s[r.value] == '.' && '.' !in s[r.value + 1..]
  {
    if |s| == 0 then None
    else if s[|s| - 1] == '.' then Some(|s| - 1)
    else
      var r := LastDot(s[..|s| - 1]);
      assert s[..|s| - 1] + [s[|s| - 1]] == s;
      r
  }

  /** getNewFileName: stem + "_resize." + extension, split at the last '.'
      (NewFileNameAtLastDot states the result). The mode argument of the
      source is unused and therefore not a parameter. */
  function NewFileName(originalName: string): (r: string)
  {
    var parts := Split(originalName);
    var ext := parts[|parts| - 1];
    var name := Join(parts[..|parts| - 1]);
    name + "_resize." + ext
  }

  /** Joining the pieces of a split gives back the original string. */
  lemma {:induction false} JoinSplit(s: string)
    ensures Join(Split(s)) == s
  {
    if |s| > 0 {
      var rest := Split(s[1..]);
      JoinSplit(s[1..]);
      if s[0] == '.' {
        assert Split(s) == [""] + rest;
      } else {
        JoinConsHead(s[0], rest);
      }
      assert [s[0]] + s[1..] == s;
    }
  }

  lemma {:induction false} JoinConsHead(c: char, parts: seq<string>)
    requires |parts| >= 1
    ensures Join([[c] + parts[0]] + parts[1..]) == [c] + Join(parts)
  {
  }

  /** A string without dots splits into itself alone. */
  lemma {:induction false} SplitNoDot(s: string)
    requires '.' !in s
    ensures Split(s) == [s]
  {
    if |s| > 0 {
      assert s[0] in s;
      assert forall c :: c in s[1..] ==> c in s;
      SplitNoDot(s[1..]);
      assert [s[0]] + s[1..] == s;
    }
  }

  /** Splitting a + "." + t, where t has no dot, adds t as a last piece. */
  lemma {:induction false} SplitLastPiece(a: string, t: string)
    requires '.' !in t
    ensures Split(a + "." + t) == Split(a) + [t]
  {
    if |a| == 0 {
      assert a + "." + t == "." + t;
      assert ("." + t)[1..] == t;
      SplitNoDot(t);
    } else {
      SplitLastPiece(a[1..], t);
      assert (a + "." + t)[1..] == a[1..] + "." + t;
    }
  }

  /** Popping the last piece of split('.') gives the text after the last
      '.', and joining the other pieces gives the text before it; without a
      dot the whole name is the one piece and the stem is empty. */
  lemma SplitAtLastDot(s: string)
    ensures var parts := Split(s);
      && (LastDot(s).None? ==> parts == [s])
      && (LastDot(s).Some? ==>
            Join(parts[..|parts| - 1]) == s[..LastDot(s).value]
            && parts[|parts| - 1] == s[LastDot(s).value + 1..])
  {
    match LastDot(s)
    case None =>
      SplitNoDot(s);
    case Some(i) =>
      var a, t := s[..i], s[i + 1..];
      assert s == a + "." + t;
      SplitLastPiece(a, t);
      var parts := Split(s);
      assert parts[..|parts| - 1] == Split(a);
      JoinSplit(a);
  }

  /** The new name is the text before the last '.', then "_resize.", then
      the text after it; a name n without a dot becomes "_resize." + n. */
  lemma NewFileNameAtLastDot(originalName: string)
    ensures LastDot(originalName).None? ==> NewFileName(originalName) == "_resize." + originalName
    ensures LastDot(originalName).Some? ==>
      var i := LastDot(originalName).value;
      NewFileName(originalName) == originalName[..i] + "_resize." + originalName[i + 1..]
  {
    SplitAtLastDot(originalName);
  }

  /** Example: a name with two dots keeps the first one in the stem. The name
      comes in through a parameter because unfolding Split on the literal
      itself is too costly for the verifier. */
  lemma NewFileNameExample(name: string)
    requires name == "vacation.photo.png"
    ensures NewFileName(name) == "vacation.photo_resize.png"
  {
    var a, t := "vacation.photo", "png";
    assert a + "." + t == name;
    NewFileNameOfParts(a, t);
  }

  /** For a stem a and a dot-free extension t, a.t becomes a_resize.t. */
  lemma NewFileNameOfParts(a: string, t: string)
    requires '.' !in t
    ensures NewFileName(a + "." + t) == a + "_resize." + t
  {
    SplitLastPiece(a, t);
    var parts := Split(a + "." + t);
    assert parts[..|parts| - 1] == Split(a);
    JoinSplit(a);
  }
}
