/**
 * The knowledge-base upload of the front end: the text of each selected
 * file is cut into fixed-size chunks, one `kb_chunks` row is inserted per
 * chunk, and the progress bar is set after every insert.
 */
module KnowledgeBase {
  import opened Common

  /** chunkText's default `chunkSize`. */
  const ChunkSize: nat := 1000

  // ---------------------------------------------------------------------------
  // chunkText
  // ---------------------------------------------------------------------------

  /** The chunks of `text` as a reference definition: the first `size`
      characters, then the chunks of what follows. */
  function Chunks(text: string, size: nat): seq<string>
    requires size > 0
    decreases |text|
  {
    if text == [] then []
    else if |text| <= size then [text]
    else [text[..size]] + Chunks(text[size..], size)
  }

  function Concat(ss: seq<string>): string {
    if ss == [] then "" else ss[0] + Concat(ss[1..])
  }

  /** One step of the loop: `text.slice(i, i + size)` (the end clamped to the
      length), then the chunks of the remainder. */
  lemma ChunksStep(text: string, size: nat, i: nat)
    requires size > 0 && i < |text|
    ensures Chunks(text[i..], size)
            == [text[i..Min(i + size, |text|)]] + Chunks(text[Min(i + size, |text|)..], size)
  {
    var t := text[i..];
    if |t| > size {
      assert t[..size] == text[i..i + size];
      assert t[size..] == text[i + size..];
    } else {
      assert text[i..Min(i + size, |text|)] == t;
      assert text[Min(i + size, |text|)..] == [];
    }
  }

  /** chunkText: steps through the text `size` characters at a time and
      pushes each slice. The source's loop does not end for a size of 0. */
  method ChunkText(text: string, size: nat) returns (chunks: seq<string>)
    requires size > 0
    ensures chunks == Chunks(text, size)
  {
    chunks := [];
    var i: nat := 0;
    assert text[0..] == text;
    while i < |text|
      invariant chunks + Chunks(text[Min(i, |text|)..], size) == Chunks(text, size)
      decreases |text| - i
    {
      ChunksStep(text, size, i);
      chunks := chunks + [text[i..Min(i + size, |text|)]];
      i := i + size;
    }
    assert text[|text|..] == [];
  }

  /** Joining the chunks gives back the text exactly. */
  lemma {:induction false} ChunksRebuildText(text: string, size: nat)
    requires size > 0
    ensures Concat(Chunks(text, size)) == text
    decreases |text|
  {
    if |text| > size {
      var c := Chunks(text, size);
      assert c[1..] == Chunks(text[size..], size);
      ChunksRebuildText(text[size..], size);
      assert text[..size] + text[size..] == text;
    }
  }

  /** No chunk is empty, none is longer than `size`, and all but the last
      are exactly `size` long. */
  lemma {:induction false} ChunkLengths(text: string, size: nat)
    requires size > 0
    ensures var c := Chunks(text, size);
            forall j :: 0 <= j < |c| ==> 0 < |c[j]| <= size && (j < |c| - 1 ==> |c[j]| == size)
    decreases |text|
  {
    if |text| > size {
      ChunkLengths(text[size..], size);
      var c := Chunks(text, size);
      assert forall j :: 1 <= j < |c| ==> c[j] == Chunks(text[size..], size)[j - 1];
    }
  }

  /** The number of chunks is the length divided by `size`, rounded up:
      none for the empty text. */
  lemma {:induction false} ChunkCount(text: string, size: nat)
    requires size > 0
    ensures var c := Chunks(text, size);
            && (|c| == 0 <==> text == [])
            && (|c| > 0 ==> (|c| - 1) * size < |text| <= |c| * size)
    decreases |text|
  {
    if |text| > size {
      var rest := Chunks(text[size..], size);
      ChunkCount(text[size..], size);
      assert (|rest| + 1) * size == |rest| * size + size;
      assert (|rest| + 1 - 1) * size == (|rest| - 1) * size + size;
    }
  }

  /** Chunk `j` is the slice from `j·size` to `(j+1)·size`, the end clamped
      to the length. */
  lemma ChunkIsSlice(text: string, size: nat)
    requires size > 0
    ensures var c := Chunks(text, size);
            forall j :: 0 <= j < |c| ==>
              j * size < |text| && c[j] == text[j * size .. Min((j + 1) * size, |text|)]
  {
    var c := Chunks(text, size);
    forall j | 0 <= j < |c|
      ensures j * size < |text| && c[j] == text[j * size .. Min((j + 1) * size, |text|)]
    {
      ChunkAt(text, size, j);
    }
  }

  lemma {:induction false} ChunkAt(text: string, size: nat, j: nat)
    requires size > 0 && j < |Chunks(text, size)|
    ensures j * size < |text|
    ensures Chunks(text, size)[j] == text[j * size .. Min((j + 1) * size, |text|)]
    decreases j
  {
    if j == 0 {
      assert (j + 1) * size == size;
      if |text| <= size {
        assert text[0..|text|] == text;
      }
    } else {
      var rest := text[size..];
      assert Chunks(text, size)[j] == Chunks(rest, size)[j - 1];
      ChunkAt(rest, size, j - 1);
      SliceOfRest(text, size, j);
    }
  }

  /** Slice `j - 1` of `text[size..]` is slice `j` of `text`. */
  lemma SliceOfRest(text: string, size: nat, j: nat)
    requires 0 < size < |text| && 0 < j
    requires (j - 1) * size < |text| - size
    ensures j * size < |text|
    ensures text[size..][(j - 1) * size .. Min(j * size, |text| - size)]
            == text[j * size .. Min((j + 1) * size, |text|)]
  {
    assert (j - 1) * size + size == j * size;
    assert j * size + size == (j + 1) * size;
  }

  // ---------------------------------------------------------------------------
  // handleUpload
  // ---------------------------------------------------------------------------

  /** A selected file: its name and the text `file.text()` resolves to. */
  datatype SourceFile = SourceFile(name: string, text: string)

  /** The row inserted for one chunk; `metadata.uploaded_at` is left out. */
  datatype ChunkRow = ChunkRow(projectId: string, text: string, chunkIndex: nat,
                               sourceName: string, filename: string, chunkTotal: nat)

  /** The rows for one file, in chunk order. */
  function FileRows(projectId: string, f: SourceFile): seq<ChunkRow> {
    var cs := Chunks(f.text, ChunkSize);
    seq(|cs|, j requires 0 <= j < |cs| => ChunkRow(projectId, cs[j], j, f.name, f.name, |cs|))
  }

  /** The rows for the first `i` files. */
  function RowsUpTo(projectId: string, files: seq<SourceFile>, i: nat): seq<ChunkRow>
    requires i <= |files|
  {
    if i == 0 then [] else RowsUpTo(projectId, files, i - 1) + FileRows(projectId, files[i - 1])
  }

  function ChunkCounts(files: seq<SourceFile>): seq<nat> {
    seq(|files|, i requires 0 <= i < |files| => |Chunks(files[i].text, ChunkSize)|)
  }

  /** The progress shown after chunk `j` of the `n` chunks of file `i`, of
      `f` files: `(i·n + j + 1) / (f·n) · 100`. */
  function Progress(i: nat, j: nat, n: nat, f: nat): real
    requires 0 < n && 0 < f
  {
    ((i * n + j + 1) as real / (f * n) as real) * 100.0
  }

  function FileProgress(i: nat, n: nat, f: nat): seq<real>
    requires 0 < f
  {
    seq(n, j requires 0 <= j < n => Progress(i, j, n, f))
  }

  /** The progress values shown while the first `i` files are uploaded, for
      files with `ns` chunks each. */
  function TraceUpTo(ns: seq<nat>, i: nat): seq<real>
    requires i <= |ns|
  {
    if i == 0 then [] else TraceUpTo(ns, i - 1) + FileProgress(i - 1, ns[i - 1], |ns|)
  }

  /** The loops of handleUpload: the rows inserted, in order, and the
      progress value set after each insert. The resets of the progress to 0
      before and after the loops, and the outcome of each insert, which the
      source does not inspect, are left out. */
  method Upload(projectId: string, files: seq<SourceFile>) returns (rows: seq<ChunkRow>, progress: seq<real>)
    ensures rows == RowsUpTo(projectId, files, |files|)
    ensures progress == TraceUpTo(ChunkCounts(files), |files|)
  {
    rows := [];
    progress := [];
    ghost var ns := ChunkCounts(files);
    for i := 0 to |files|
      invariant rows == RowsUpTo(projectId, files, i)
      invariant progress == TraceUpTo(ns, i)
    {
      var fileRows, fileProgress := UploadFile(projectId, files[i], i, |files|);
      rows := rows + fileRows;
      progress := progress + fileProgress;
    }
  }

  /** The inner loop of handleUpload for file `i` of `count`. */
  method UploadFile(projectId: string, file: SourceFile, i: nat, count: nat)
      returns (rows: seq<ChunkRow>, progress: seq<real>)
    requires i < count
    ensures rows == FileRows(projectId, file)
    ensures progress == FileProgress(i, |Chunks(file.text, ChunkSize)|, count)
  {
    var chunks := ChunkText(file.text, ChunkSize);
    ghost var fileRows := FileRows(projectId, file);
    ghost var fileProgress := FileProgress(i, |chunks|, count);
    rows := [];
    progress := [];
    for j := 0 to |chunks|
      invariant rows == fileRows[..j]
      invariant progress == fileProgress[..j]
    {
      rows := rows + [ChunkRow(projectId, chunks[j], j, file.name, file.name, |chunks|)];
      progress := progress + [((i * |chunks| + j + 1) as real / (count * |chunks|) as real) * 100.0];
      assert fileRows[..j + 1] == fileRows[..j] + [fileRows[j]];
      assert fileProgress[..j + 1] == fileProgress[..j] + [fileProgress[j]];
    }
    assert fileRows[..|chunks|] == fileRows;
    assert fileProgress[..|chunks|] == fileProgress;
  }

  function RowTexts(rows: seq<ChunkRow>): seq<string> {
    seq(|rows|, k requires 0 <= k < |rows| => rows[k].text)
  }

  /** The rows of a file number its chunks 0 to n-1, all carry the chunk
      total n and the file's name, and their texts rebuild the file. */
  lemma FileRowsDescribeFile(projectId: string, f: SourceFile)
    ensures var rows := FileRows(projectId, f);
            && (forall j :: 0 <= j < |rows| ==>
                  && rows[j].chunkIndex == j && rows[j].chunkTotal == |rows|
                  && rows[j].sourceName == f.name && rows[j].filename == f.name
                  && rows[j].projectId == projectId)
            && Concat(RowTexts(rows)) == f.text
  {
    var rows := FileRows(projectId, f);
    assert RowTexts(rows) == Chunks(f.text, ChunkSize);
    ChunksRebuildText(f.text, ChunkSize);
  }

  /** a/b < c/d over positive denominators, by cross-multiplication. */
  lemma FracLess(a: int, b: int, c: int, d: int)
    requires b > 0 && d > 0 && a * d < c * b
    ensures a as real / b as real < c as real / d as real
  {
    var x := a as real / b as real;
    var y := c as real / d as real;
    assert x * b as real == a as real;
    assert y * d as real == c as real;
    assert (x - y) * (b as real * d as real) == a as real * d as real - c as real * b as real;
  }

  /** a/b <= c/d over positive denominators, by cross-multiplication. */
  lemma FracAtMost(a: int, b: int, c: int, d: int)
    requires b > 0 && d > 0 && a * d <= c * b
    ensures a as real / b as real <= c as real / d as real
  {
    var x := a as real / b as real;
    var y := c as real / d as real;
    assert x * b as real == a as real;
    assert y * d as real == c as real;
    assert (x - y) * (b as real * d as real) == a as real * d as real - c as real * b as real;
  }

  lemma MulLess(a: int, b: int, c: int)
    requires a < b && c > 0
    ensures a * c < b * c
  {
    assert b * c - a * c == (b - a) * c;
  }

  lemma MulAtMost(a: int, b: int, c: int)
    requires a <= b && c >= 0
    ensures a * c <= b * c
  {
    assert b * c - a * c == (b - a) * c;
  }

  /** During file `i` of `f`, the progress lies above i/f and at most at
      (i+1)/f of the bar, reaching (i+1)/f exactly at the file's last chunk. */
  lemma ProgressWithinFile(i: nat, j: nat, n: nat, f: nat)
    requires j < n && i < f
    ensures 100.0 * (i as real / f as real) < Progress(i, j, n, f) <= 100.0 * ((i + 1) as real / f as real)
    ensures j == n - 1 ==> Progress(i, j, n, f) == 100.0 * ((i + 1) as real / f as real)
  {
    var m := i * n + j + 1;
    assert (i + 1) * n == i * n + n;
    MulLess(i * n, m, f);
    MulAtMost(m, (i + 1) * n, f);
    assert i * (f * n) == (i * n) * f;
    assert (i + 1) * (f * n) == ((i + 1) * n) * f;
    FracLess(i, f, m, f * n);
    FracAtMost(m, f * n, i + 1, f);
    if j == n - 1 {
      FracAtMost(i + 1, f, m, f * n);
    }
  }

  /** Every value shown while the first `i` files are uploaded is at most
      i/f of the bar. */
  lemma {:induction false} TraceAtMost(ns: seq<nat>, i: nat)
    requires i <= |ns|
    ensures forall k :: 0 <= k < |TraceUpTo(ns, i)| ==>
              TraceUpTo(ns, i)[k] <= 100.0 * (i as real / |ns| as real)
  {
    if i > 0 {
      TraceAtMost(ns, i - 1);
      var f := |ns|;
      var before := TraceUpTo(ns, i - 1);
      var file := FileProgress(i - 1, ns[i - 1], f);
      assert (i - 1) as real / f as real <= i as real / f as real by {
        FracAtMost(i - 1, f, i, f);
      }
      forall j | 0 <= j < |file| ensures file[j] <= 100.0 * (i as real / f as real) {
        ProgressWithinFile(i - 1, j, ns[i - 1], f);
      }
    }
  }

  predicate StrictlyIncreasing(s: seq<real>) {
    forall a, b :: 0 <= a < b < |s| ==> s[a] < s[b]
  }

  /** Within one file the bar moves forward at every chunk, staying above
      i/f and at most at 100. */
  lemma FileProgressIncreasing(i: nat, n: nat, f: nat)
    requires i < f
    ensures var p := FileProgress(i, n, f);
            && StrictlyIncreasing(p)
            && (forall j :: 0 <= j < n ==> 100.0 * (i as real / f as real) < p[j] <= 100.0)
  {
    var p := FileProgress(i, n, f);
    assert (i + 1) as real / f as real <= 1.0 by {
      FracAtMost(i + 1, f, 1, 1);
    }
    forall j | 0 <= j < n ensures 100.0 * (i as real / f as real) < p[j] <= 100.0 {
      ProgressWithinFile(i, j, n, f);
    }
    forall a, b | 0 <= a < b < n ensures p[a] < p[b] {
      MulLess(i * n + a + 1, i * n + b + 1, f * n);
      FracLess(i * n + a + 1, f * n, i * n + b + 1, f * n);
    }
  }

  /** Two increasing runs separated by a bound make one increasing run. */
  lemma IncreasingConcat(s: seq<real>, t: seq<real>, bound: real)
    requires StrictlyIncreasing(s) && StrictlyIncreasing(t)
    requires forall k :: 0 <= k < |s| ==> s[k] <= bound
    requires forall k :: 0 <= k < |t| ==> bound < t[k]
    ensures StrictlyIncreasing(s + t)
  {
    var u := s + t;
    forall a, b | 0 <= a < b < |u| ensures u[a] < u[b] {
      if b < |s| {
        assert u[a] == s[a] && u[b] == s[b];
      } else if a >= |s| {
        assert u[a] == t[a - |s|] && u[b] == t[b - |s|];
      } else {
        assert u[a] == s[a] && u[b] == t[b - |s|];
      }
    }
  }

  /** The progress bar only moves forward and never leaves (0, 100]. */
  lemma {:induction false} ProgressIncreasing(ns: seq<nat>, i: nat)
    requires i <= |ns|
    ensures var t := TraceUpTo(ns, i);
            && StrictlyIncreasing(t)
            && (forall k :: 0 <= k < |t| ==> 0.0 < t[k] <= 100.0)
  {
    if i > 0 {
      ProgressIncreasing(ns, i - 1);
      TraceAtMost(ns, i - 1);
      var f := |ns|;
      var before := TraceUpTo(ns, i - 1);
      var file := FileProgress(i - 1, ns[i - 1], f);
      FileProgressIncreasing(i - 1, ns[i - 1], f);
      var bound := 100.0 * ((i - 1) as real / f as real);
      assert 0.0 <= bound;
      IncreasingConcat(before, file, bound);
      var t := before + file;
      forall k | 0 <= k < |t| ensures 0.0 < t[k] <= 100.0 {
        if k >= |before| {
          assert t[k] == file[k - |before|];
        }
      }
    }
  }

  /** After the last chunk of the last file, the bar shows 100. */
  lemma UploadEndsAtHundred(ns: seq<nat>)
    requires |ns| > 0 && ns[|ns| - 1] > 0
    ensures var t := TraceUpTo(ns, |ns|);
            |t| > 0 && t[|t| - 1] == 100.0
  {
    var f := |ns|;
    var n := ns[f - 1];
    ProgressWithinFile(f - 1, n - 1, n, f);
    assert f as real / f as real == 1.0;
    var t := TraceUpTo(ns, f);
    assert t[|t| - 1] == FileProgress(f - 1, n, f)[n - 1];
  }
}
