// Open documents (src/lsp/working_files.cpp): a buffer with a cached line index.
module WorkingFiles {
  import opened Base
  import opened TextPosition
  import opened Utf8Text

  // -- The line index --------------------------------------------------------------

  /** Offsets of line starts from position i on. */
  function LineStarts(text: Text, i: nat): (r: seq<nat>)
    requires i <= |text|
    decreases |text| - i
  {
    if i == |text| then []
    else if text[i] == LF then [i + 1] + LineStarts(text, i + 1)
    else LineStarts(text, i + 1)
  }

  function LineOffsets(text: Text): (r: seq<nat>) {
    [0] + LineStarts(text, 0)
  }

  method BuildLineOffsets(content: Text) returns (offsets: seq<nat>)
    ensures offsets == LineOffsets(content)
  {
    offsets := [0];
    var i := 0;
    while i < |content|
      invariant 0 <= i <= |content|
      invariant offsets + LineStarts(content, i) == LineOffsets(content)
    {
      if content[i] == LF {
        offsets := offsets + [i + 1];
      }
      i := i + 1;
    }
  }

  /** The index agrees with the line scan, from any position on. */
  lemma {:induction false} StartsAgreeWithScan(text: Text, line: nat, i: nat)
    requires i <= |text| && line > 0
    ensures line <= |LineStarts(text, i)| ==> SkipLines(text, line, i) == LineStarts(text, i)[line - 1] <= |text|
    ensures line > |LineStarts(text, i)| ==> SkipLines(text, line, i) == |text|
    decreases |text| - i
  {
    if i < |text| {
      if text[i] != LF {
        StartsAgreeWithScan(text, line, i + 1);
      } else if line > 1 {
        StartsAgreeWithScan(text, line - 1, i + 1);
      }
    }
  }

  lemma IndexAgreesWithScan(text: Text, line: nat)
    ensures SkipLines(text, line, 0) == if line < |LineOffsets(text)| then LineOffsets(text)[line] else |text|
  {
    if line > 0 {
      StartsAgreeWithScan(text, line, 0);
    }
  }

  // -- Edits -----------------------------------------------------------------------

  /** A content change; without a range it replaces the whole document. */
  datatype Change = Change(range: Option<(Position, Position)>, text: Text)

  predicate Applicable(text: Text, c: Change) {
    c.range.Some? ==> OffsetOf(text, c.range.value.0) <= OffsetOf(text, c.range.value.1)
  }

  function Splice(text: Text, from: nat, to: nat, insert: Text): (r: Text)
    requires from <= to <= |text|
  {
    text[..from] + insert + text[to..]
  }

  function Apply(text: Text, c: Change): (r: Text)
    requires Applicable(text, c)
  {
    match c.range
    case None => c.text
    case Some((start, end)) => Splice(text, OffsetOf(text, start), OffsetOf(text, end), c.text)
  }

  predicate AllApplicable(text: Text, changes: seq<Change>)
    decreases |changes|
  {
    changes == [] || (Applicable(text, changes[0]) && AllApplicable(Apply(text, changes[0]), changes[1..]))
  }

  function ApplyAll(text: Text, changes: seq<Change>): (r: Text)
    requires AllApplicable(text, changes)
    decreases |changes|
  {
    if changes == [] then text else ApplyAll(Apply(text, changes[0]), changes[1..])
  }

  /** std::string::replace is defined for ranges that run forwards only: the changes
      before the first reversed one, and what they make of the text. */
  function CountDefined(text: Text, changes: seq<Change>): (k: nat)
    ensures k <= |changes|
    decreases |changes|
  {
    if changes == [] || !Applicable(text, changes[0]) then 0 else 1 + CountDefined(Apply(text, changes[0]), changes[1..])
  }

  function ApplyDefined(text: Text, changes: seq<Change>): (r: Text)
    decreases |changes|
  {
    if changes == [] || !Applicable(text, changes[0]) then text else ApplyDefined(Apply(text, changes[0]), changes[1..])
  }

  /** The defined changes are a prefix that can be applied in full; the one behind it
      cannot, and all are defined exactly when every range runs forwards. */
  lemma {:induction false} DefinedIsPrefix(text: Text, changes: seq<Change>)
    ensures var k := CountDefined(text, changes);
            && AllApplicable(text, changes[..k])
            && ApplyDefined(text, changes) == ApplyAll(text, changes[..k])
            && (k < |changes| ==> !Applicable(ApplyDefined(text, changes), changes[k]))
            && (k == |changes| <==> AllApplicable(text, changes))
    decreases |changes|
  {
    var k := CountDefined(text, changes);
    if changes != [] && Applicable(text, changes[0]) {
      DefinedIsPrefix(Apply(text, changes[0]), changes[1..]);
      assert changes[..k][0] == changes[0] && changes[..k][1..] == changes[1..][..k - 1];
    }
  }

  /** Ranges run forwards and do not start past the end of their line. */
  predicate Orderly(text: Text, c: Change) {
    c.range.Some? ==> AtMost(c.range.value.0, c.range.value.1) && InLine(text, c.range.value.0)
  }

  lemma OrderlyIsApplicable(text: Text, c: Change)
    requires Orderly(text, c)
    ensures Applicable(text, c)
  {
    if c.range.Some? {
      OffsetsAreMonotone(text, c.range.value.0, c.range.value.1);
    }
  }

  ghost predicate AllOrderly(text: Text, changes: seq<Change>)
    decreases |changes|
  {
    changes != [] ==>
      && Orderly(text, changes[0])
      && (Applicable(text, changes[0]) ==> AllOrderly(Apply(text, changes[0]), changes[1..]))
  }

  /** In-line, ordered changes can all be applied, each to the result of the last. */
  lemma {:induction false} OrderlyChangesApply(text: Text, changes: seq<Change>)
    requires AllOrderly(text, changes)
    ensures AllApplicable(text, changes)
    decreases |changes|
  {
    if changes != [] {
      OrderlyIsApplicable(text, changes[0]);
      OrderlyChangesApply(Apply(text, changes[0]), changes[1..]);
    }
  }

  /** A change without a range leaves exactly its own text, whatever came before it. */
  lemma {:induction false} WholeTextReplaces(text: Text, before: seq<Change>, whole: Text, after: seq<Change>)
    requires AllApplicable(text, before)
    ensures ApplyDefined(text, before + [Change(None, whole)] + after) == ApplyDefined(whole, after)
    ensures ApplyDefined(text, before + [Change(None, whole)]) == whole
    decreases |before|
  {
    var c := Change(None, whole);
    var all := before + [c] + after;
    if before == [] {
      assert all[0] == c && all[1..] == after && (before + [c])[1..] == [];
    } else {
      assert all[0] == before[0] && all[1..] == before[1..] + [c] + after;
      assert (before + [c])[0] == before[0] && (before + [c])[1..] == before[1..] + [c];
      WholeTextReplaces(Apply(text, before[0]), before[1..], whole, after);
    }
  }

  /** On valid UTF-8 a range change with valid UTF-8 is a splice of code points: it
      never cuts a code point, and the document stays valid. */
  lemma EditIsCodePointSplice(cps: seq<Scalar>, start: Position, end: Position, insert: seq<Scalar>)
    requires Applicable(Utf8(cps), Change(Some((start, end)), Utf8(insert)))
    ensures var i, j := Index(cps, start), Index(cps, end);
            && i <= j
            && Apply(Utf8(cps), Change(Some((start, end)), Utf8(insert))) == Utf8(cps[..i] + insert + cps[j..])
  {
    var text := Utf8(cps);
    var i, j := Index(cps, start), Index(cps, end);
    OffsetIsCodePointIndex(cps, start);
    OffsetIsCodePointIndex(cps, end);
    LongerPrefix(cps, j, i);
    PrefixOfUtf8(cps, i);
    PrefixOfUtf8(cps, j);
    Utf8Append(cps[..i], insert);
    Utf8Append(cps[..i] + insert, cps[j..]);
  }

  lemma PrefixOfUtf8(cps: seq<Scalar>, k: nat)
    requires k <= |cps|
    ensures Utf8(cps) == Utf8(cps[..k]) + Utf8(cps[k..])
  {
    SplitSeq(cps, k);
    Utf8Append(cps[..k], cps[k..]);
  }

  lemma LongerPrefix(cps: seq<Scalar>, j: nat, i: nat)
    requires j <= |cps| && i <= |cps|
    ensures |Utf8(cps[..i])| <= |Utf8(cps[..j])| ==> i <= j
  {
    if j < i {
      Utf8Append(cps[..j], cps[j..i]);
      assert cps[..j] + cps[j..i] == cps[..i];
      assert cps[j..i] != [];
    }
  }

  // -- The documents ---------------------------------------------------------------

  class WorkingFile {
    var content: Text
    var lineOffsets: seq<nat>
    var version: int
    var counter: nat

    ghost predicate Valid()
      reads this
    {
      lineOffsets == LineOffsets(content)
    }

    constructor (content: Text, version: int)
      ensures Valid() && this.content == content && this.version == version && counter == 0
    {
      this.content, this.version, this.counter := content, version, 0;
      new;
      lineOffsets := BuildLineOffsets(content);
    }

    method RebuildLineOffsets()
      modifies this`lineOffsets
      ensures Valid()
    {
      lineOffsets := BuildLineOffsets(content);
    }

    /** The cached lookup equals the full scan, for every position. */
    method CachedOffset(position: Position) returns (r: nat)
      requires Valid()
      ensures r == OffsetOf(content, position) <= |content|
    {
      var i := |content|;
      IndexAgreesWithScan(content, position.line);
      if position.line < |lineOffsets| {
        i := lineOffsets[position.line];
      }
      r := UnitsLoop(content, position.character, i);
    }

    method ReplaceAll(text: Text)
      modifies this`content, this`lineOffsets
      ensures Valid() && content == text
    {
      content := text;
      RebuildLineOffsets();
    }

    /** A reversed range would hand std::string::replace its iterators in the wrong
        order; nothing is promised from there on, and the model reports it. */
    method ApplyChange(c: Change) returns (defined: bool)
      requires Valid()
      modifies this`content, this`lineOffsets
      ensures Valid() && defined == old(Applicable(content, c))
      ensures content == if defined then old(Apply(content, c)) else old(content)
    {
      if c.range.None? {
        ReplaceAll(c.text);
        return true;
      }
      var from := CachedOffset(c.range.value.0);
      var to := CachedOffset(c.range.value.1);
      if from > to {
        return false;
      }
      ReplaceAll(content[..from] + c.text + content[to..]);
      return true;
    }

    method ApplyChanges(changes: seq<Change>) returns (applied: nat)
      requires Valid()
      modifies this`content, this`lineOffsets
      ensures Valid() && content == old(ApplyDefined(content, changes))
      ensures applied == old(CountDefined(content, changes)) <= |changes|
    {
      applied := 0;
      ghost var start := content;
      assert changes[0..] == changes;
      while applied < |changes|
        invariant 0 <= applied <= |changes| && Valid()
        invariant ApplyDefined(content, changes[applied..]) == ApplyDefined(start, changes)
        invariant applied + CountDefined(content, changes[applied..]) == CountDefined(start, changes)
      {
        assert changes[applied..][0] == changes[applied] && changes[applied..][1..] == changes[applied + 1..];
        var defined := ApplyChange(changes[applied]);
        if !defined {
          return;
        }
        applied := applied + 1;
      }
    }
  }

  type Path = string

  class OpenFiles {
    var files: map<Path, WorkingFile>

    /** Every open document has a correct index, and no two paths share a document. */
    ghost predicate Valid()
      reads this, files.Values
    {
      && (forall p :: p in files ==> files[p].Valid())
      && (forall p, q :: p in files && q in files && p != q ==> files[p] != files[q])
    }

    /** The text of every open document. */
    ghost function Documents(): map<Path, Text>
      reads this, files.Values
    {
      map p | p in files :: files[p].content
    }

    /** Rewriting one document leaves the others alone. */
    twostate lemma OnlyOneChanged(p: Path)
      requires old(Valid()) && files == old(files) && p in files && files[p].Valid()
      requires forall f :: f in files.Values && f != files[p] ==> unchanged(f)
      ensures Valid() && Documents() == old(Documents())[p := files[p].content]
    {
      forall q | q in files && q != p ensures files[q].Valid() && files[q].content == old(files[q].content) {
        assert files[q] in files.Values && files[q] != files[p];
      }
    }

    /** Adding a new document leaves the others alone. */
    twostate lemma FileAdded(p: Path)
      requires old(Valid()) && p !in old(files) && p in files && files == old(files)[p := files[p]]
      requires files[p].Valid() && files[p] !in old(files).Values
      requires forall f :: f in old(files).Values ==> unchanged(f)
      ensures Valid() && Documents() == old(Documents())[p := files[p].content]
    {
      OthersUnchanged(p);
      AddedIsDistinct(old(files), files, p);
      AddedDocuments(p);
    }

    twostate lemma AddedDocuments(p: Path)
      requires p in files && files == old(files)[p := files[p]]
      requires forall q :: q in files && q != p ==> q in old(files) && files[q] == old(files)[q] && unchanged(files[q])
      ensures Documents() == old(Documents())[p := files[p].content]
    {
      var now, was := Documents(), old(Documents());
      assert now.Keys == files.Keys == was.Keys + {p};
      assert forall q :: q in files && q != p ==> now[q] == was[q];
    }

    twostate lemma OthersUnchanged(p: Path)
      requires p in files && files == old(files)[p := files[p]]
      requires forall f :: f in old(files).Values ==> unchanged(f)
      ensures forall q :: q in files && q != p ==> q in old(files) && files[q] == old(files)[q] && unchanged(files[q])
    {
      var was := old(files);
      forall q | q in files && q != p ensures q in was && files[q] == was[q] && unchanged(files[q]) {
        assert was[q] in was.Values;
      }
    }

    lemma AddedIsDistinct(was: map<Path, WorkingFile>, now: map<Path, WorkingFile>, p: Path)
      requires p in now && now == was[p := now[p]] && now[p] !in was.Values
      requires forall q, r :: q in was && r in was && q != r ==> was[q] != was[r]
      ensures forall q, r :: q in now && r in now && q != r ==> now[q] != now[r]
    {
    }

    constructor ()
      ensures Valid() && Documents() == map[]
    {
      files := map[];
    }

    method Reopen(p: Path, text: Text, version: int)
      requires Valid() && p in files
      modifies files[p]
      ensures Valid() && Documents() == old(Documents())[p := text]
      ensures files[p].version == version && files[p].counter == old(files[p].counter)
    {
      var file := files[p];
      file.version := version;
      file.ReplaceAll(text);
      OnlyOneChanged(p);
    }

    method AddFile(p: Path, text: Text)
      requires Valid() && p !in files
      modifies this
      ensures Valid() && Documents() == old(Documents())[p := text]
      ensures files.Keys == old(files).Keys + {p} && fresh(files[p]) && files[p].version == 0
    {
      var file := new WorkingFile(text, 0);
      files := files[p := file];
      FileAdded(p);
    }

    /** An invalid path opens nothing; opening again replaces text and version. A new
        document starts at version 0 whatever the client sent. */
    method OnOpen(path: Option<Path>, text: Text, version: int)
      requires Valid()
      modifies this, files.Values
      ensures Valid()
      ensures Documents() == if path.Some? then old(Documents())[path.value := text] else old(Documents())
      ensures path.Some? ==> path.value in files
                             && files[path.value].version == if path.value in old(files) then version else 0
    {
      if path.None? {
        return;
      }
      if path.value in files {
        Reopen(path.value, text, version);
      } else {
        AddFile(path.value, text);
      }
    }

    /** Unknown or invalid paths are ignored; otherwise the changes are folded in, up to
        the first whose effect is not defined. */
    method OnChange(path: Option<Path>, version: Option<int>, changes: seq<Change>) returns (applied: nat)
      requires Valid()
      modifies files.Values
      ensures Valid()
      ensures path.None? || path.value !in files ==> Documents() == old(Documents()) && applied == 0
      ensures path.Some? && path.value in files ==>
                && Documents() == old(Documents())[path.value := old(ApplyDefined(files[path.value].content, changes))]
                && applied == old(CountDefined(files[path.value].content, changes))
                && files[path.value].counter == old(files[path.value].counter) + 1
                && files[path.value].version
                   == (if version.Some? then version.value else old(files[path.value].version))
    {
      if path.None? || path.value !in files {
        return 0;
      }
      var file := files[path.value];
      if version.Some? {
        file.version := version.value;
      }
      file.counter := file.counter + 1;
      applied := file.ApplyChanges(changes);
      OnlyOneChanged(path.value);
    }

    method OnClose(path: Option<Path>) returns (closed: bool)
      requires Valid()
      modifies this
      ensures Valid()
      ensures closed == (path.Some? && path.value in old(files))
      ensures Documents() == if path.Some? then old(Documents()) - {path.value} else old(Documents())
    {
      closed := path.Some? && path.value in files;
      if closed {
        files := files - {path.value};
      }
    }
  }
}
