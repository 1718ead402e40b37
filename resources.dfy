/**
 * The resource loader: a text file read as blocks of five non-blank lines
 * (title, author, type, content, tags), each well-typed block becoming one
 * row of the resources table.
 */
module Resources {
  import opened Wrappers
  import opened Text

  /** Content longer than this is cut to this many characters. */
  const MaxContent: nat := 500
  /** Lines per resource block. */
  const BlockSize: nat := 5

  datatype Resource = Resource(title: string, author: string, kind: string, content: string, tags: string)

  /** The two resource types the loader accepts. */
  predicate KnownKind(kind: string)
  {
    kind == "book" || kind == "article"
  }

  /** `content[:500]` applied when the content is longer than 500 characters. */
  function Truncate(content: string): (r: string)
    ensures |r| == if |content| <= MaxContent then |content| else MaxContent
    ensures r == content[..|r|]
  {
    if |content| > MaxContent then content[..MaxContent] else content
  }

  /**
   * One complete block: None when its type line is neither "book" nor
   * "article" (the block is skipped); otherwise the row add_resource receives.
   */
  function ParseBlock(block: seq<string>): (r: Option<Resource>)
    requires |block| == BlockSize
    ensures r.Some? <==> KnownKind(block[2])
    ensures r.Some? ==> r.value == Resource(block[0], block[1], block[2], Truncate(block[3]), block[4])
  {
    if !KnownKind(block[2]) then None
    else Some(Resource(block[0], block[1], block[2], Truncate(block[3]), block[4]))
  }

  /** A well-formed row: known type, content within the limit. */
  predicate ResourceValid(r: Resource)
  {
    KnownKind(r.kind) && |r.content| <= MaxContent
  }

  /**
   * The rows the loader adds for the non-blank, stripped lines of the file,
   * in file order: a trailing block of fewer than five lines adds nothing.
   */
  function ParseResources(lines: seq<string>): (r: seq<Resource>)
    ensures |r| <= |lines| / BlockSize
    ensures forall k :: 0 <= k < |r| ==> ResourceValid(r[k])
    decreases |lines|
  {
    if |lines| < BlockSize then []
    else
      var row := ParseBlock(lines[..BlockSize]);
      Rows(row) + ParseResources(lines[BlockSize..])
  }

  /**
   * load_resources_from_file: strips the file's lines, drops the blank ones,
   * walks them five at a time and returns the rows handed to add_resource,
   * in the order of the calls.
   */
  method LoadResourcesFromFile(fileLines: seq<string>) returns (added: seq<Resource>)
    ensures added == ParseResources(NonBlankStripped(fileLines))
  {
    var lines := NonBlankStripped(fileLines);
    added := [];
    var i := 0;
    assert lines[0..] == lines;
    while i < |lines|
      invariant added + Remaining(lines, i) == ParseResources(lines)
      decreases |lines| - i
    {
      ParseResourcesAt(lines, i);
      if i + 4 < |lines| {
        var row := ParseBlock(lines[i..i + BlockSize]);
        AddedStep(added, row, Remaining(lines, i + BlockSize));
        if row.Some? {
          added := added + [row.value];
        }
      }
      i := i + BlockSize;
    }
    assert Remaining(lines, i) == [];
  }

  /** The rows still to come once the walk has reached position `i`. */
  function Remaining(lines: seq<string>, i: nat): seq<Resource>
  {
    if i < |lines| then ParseResources(lines[i..]) else []
  }

  /** The rows from position i on: the block starting there, if complete, then the rest. */
  lemma ParseResourcesAt(lines: seq<string>, i: nat)
    requires i < |lines|
    ensures Remaining(lines, i)
         == (if i + 4 < |lines| then Rows(ParseBlock(lines[i..i + BlockSize])) else []) + Remaining(lines, i + BlockSize)
  {
    if i + BlockSize <= |lines| {
      assert lines[i..][BlockSize..] == lines[i + BlockSize..];
      assert lines[i..][..BlockSize] == lines[i..i + BlockSize];
      if i + BlockSize == |lines| {
        assert ParseResources(lines[i + BlockSize..]) == [];
      }
    }
  }

  /** Appending the block's row keeps `added + rows still to come` unchanged. */
  lemma AddedStep(added: seq<Resource>, row: Option<Resource>, later: seq<Resource>)
    ensures (if row.Some? then added + [row.value] else added) + later == added + (Rows(row) + later)
  {
  }

  function Rows(row: Option<Resource>): seq<Resource>
  {
    if row.Some? then [row.value] else []
  }

  /**
   * The loader works block by block: the rows of a file are the rows of any
   * whole number of leading blocks followed by the rows of the rest.
   */
  lemma {:induction false} ParseResourcesAppend(a: seq<string>, b: seq<string>)
    requires |a| % BlockSize == 0
    ensures ParseResources(a + b) == ParseResources(a) + ParseResources(b)
    decreases |a|
  {
    if |a| == 0 {
      assert a + b == b;
    } else {
      assert (a + b)[..BlockSize] == a[..BlockSize];
      assert (a + b)[BlockSize..] == a[BlockSize..] + b;
      ParseResourcesAppend(a[BlockSize..], b);
    }
  }

  /** An incomplete last block is reported and ignored: it adds no row. */
  lemma TrailingBlockIgnored(a: seq<string>, tail: seq<string>)
    requires |a| % BlockSize == 0 && |tail| < BlockSize
    ensures ParseResources(a + tail) == ParseResources(a)
  {
    ParseResourcesAppend(a, tail);
    assert ParseResources(tail) == [];
  }

  /** Every complete block whose type line is known. */
  predicate AllKindsKnown(lines: seq<string>)
  {
    forall j :: 0 <= j < |lines| / BlockSize ==> KnownKind(lines[BlockSize * j + 2])
  }

  /** The row built from the j-th block of lines 5j .. 5j+4. */
  function BlockRow(lines: seq<string>, j: nat): Resource
    requires BlockSize * j + 4 < |lines|
  {
    Resource(lines[BlockSize * j], lines[BlockSize * j + 1], lines[BlockSize * j + 2],
             Truncate(lines[BlockSize * j + 3]), lines[BlockSize * j + 4])
  }

  /** Dropping the first block moves block j to position j - 1. */
  lemma BlockRowShift(lines: seq<string>, j: nat)
    requires 0 < j && BlockSize * j + 4 < |lines|
    ensures BlockRow(lines[BlockSize..], j - 1) == BlockRow(lines, j)
  {
    var rest := lines[BlockSize..];
    assert rest[BlockSize * (j - 1)] == lines[BlockSize * j];
    assert rest[BlockSize * (j - 1) + 1] == lines[BlockSize * j + 1];
    assert rest[BlockSize * (j - 1) + 2] == lines[BlockSize * j + 2];
    assert rest[BlockSize * (j - 1) + 3] == lines[BlockSize * j + 3];
    assert rest[BlockSize * (j - 1) + 4] == lines[BlockSize * j + 4];
  }

  /**
   * When every complete block has a known type, nothing is skipped: there is
   * one row per block, the j-th row built from lines 5j .. 5j+4.
   */
  lemma {:induction false} AllKnownAllLoaded(lines: seq<string>)
    requires AllKindsKnown(lines)
    ensures |ParseResources(lines)| == |lines| / BlockSize
    ensures forall j :: 0 <= j < |lines| / BlockSize ==> ParseResources(lines)[j] == BlockRow(lines, j)
    decreases |lines|
  {
    if |lines| >= BlockSize {
      var rest := lines[BlockSize..];
      assert |rest| / BlockSize == |lines| / BlockSize - 1;
      forall j | 0 <= j < |rest| / BlockSize
        ensures KnownKind(rest[BlockSize * j + 2])
      {
        assert rest[BlockSize * j + 2] == lines[BlockSize * (j + 1) + 2];
      }
      AllKnownAllLoaded(rest);
      assert KnownKind(lines[BlockSize * 0 + 2]);
      var r := ParseResources(lines);
      assert r == [ParseBlock(lines[..BlockSize]).value] + ParseResources(rest);
      forall j | 0 <= j < |lines| / BlockSize
        ensures r[j] == BlockRow(lines, j)
      {
        if j > 0 {
          assert r[j] == ParseResources(rest)[j - 1];
          BlockRowShift(lines, j);
        }
      }
    }
  }

  /** A block with an unknown type is skipped without touching the blocks around it. */
  lemma UnknownKindSkipped(a: seq<string>, block: seq<string>, b: seq<string>)
    requires |a| % BlockSize == 0 && |block| == BlockSize && !KnownKind(block[2])
    ensures ParseResources(a + block + b) == ParseResources(a) + ParseResources(b)
  {
    var rest := block + b;
    assert a + block + b == a + rest;
    ParseResourcesAppend(a, rest);
    SkipBlock(block, b);
    assert ParseResources(rest) == ParseResources(b);
  }

  lemma SkipBlock(block: seq<string>, b: seq<string>)
    requires |block| == BlockSize && !KnownKind(block[2])
    ensures ParseResources(block + b) == ParseResources(b)
  {
    var rest := block + b;
    assert rest[..BlockSize] == block;
    assert rest[BlockSize..] == b;
    assert ParseBlock(block).None?;
  }
}
