/** The pure text handling of the ingestion agent: the key's extension, LINE blocks and the assembled text. */
module IngestionText {
  import opened Wrappers
  import opened Strings

  /** The index of the last `c` in `s`, -1 when there is none (`str.rfind`). */
  function RFind(s: string, c: char): (r: int)
    ensures -1 <= r < |s|
    ensures r >= 0 ==> s[r] == c
    ensures forall j :: r < j < |s| ==> s[j] != c
  {
    if |s| == 0 then -1
    else if s[|s| - 1] == c then |s| - 1
    else RFind(s[..|s| - 1], c)
  }

  /** Some character of `p[lo..hi]` is not a dot. */
  predicate NonDotWithin(p: string, lo: int, hi: int)
  {
    exists j :: lo <= j < hi && 0 <= j < |p| && p[j] != '.'
  }

  /** `p[d]` is the last dot of `p` and lies in its final component. */
  predicate LastComponentDot(p: string, d: int)
  {
    0 <= d < |p| && p[d] == '.' && forall k :: d < k < |p| ==> p[k] != '.' && p[k] != '/'
  }

  /** Some character before `p[d]`, in the same path component, is not a dot. */
  predicate StemBefore(p: string, d: int)
  {
    exists j :: 0 <= j < d <= |p| && p[j] != '.' && forall k :: j <= k < d ==> p[k] != '/'
  }

  /** The two parts `os.path.splitext` returns. */
  datatype RootExt = RootExt(root: string, ext: string)

  /**
   * `os.path.splitext` on a POSIX path: the extension starts at the last dot, provided that dot
   * lies in the final component and some character other than a dot precedes it there (leading
   * dots of a file name do not start an extension); otherwise there is none.
   */
  function SplitExt(p: string): (r: RootExt)
    ensures r.root + r.ext == p
    ensures r.ext != "" ==> LastComponentDot(p, |r.root|) && StemBefore(p, |r.root|)
    ensures r.ext == "" ==> forall d :: LastComponentDot(p, d) ==> !StemBefore(p, d)
  {
    var sepIndex := RFind(p, '/');
    var dotIndex := RFind(p, '.');
    if dotIndex > sepIndex && NonDotWithin(p, sepIndex + 1, dotIndex) then
      assert p[..dotIndex] + p[dotIndex..] == p;
      RootExt(p[..dotIndex], p[dotIndex..])
    else
      assert forall d :: LastComponentDot(p, d) ==> d == dotIndex && d > sepIndex;
      RootExt(p, "")
  }

  /** An extension is a dot followed by neither dots nor slashes. */
  lemma ExtensionShape(p: string)
    ensures var ext := SplitExt(p).ext;
      ext != "" ==> ext[0] == '.' && forall k :: 1 <= k < |ext| ==> ext[k] != '.' && ext[k] != '/'
  {
    var r := SplitExt(p);
    if r.ext != "" {
      assert forall k :: 0 <= k < |r.ext| ==> r.ext[k] == p[|r.root| + k];
    }
  }

  /** `_get_extension(key)`: the lower-cased extension of `key or ""`. */
  function GetExtension(key: Option<string>): (ext: string)
    ensures ext != "" ==> ext[0] == '.' && forall k :: 1 <= k < |ext| ==> ext[k] != '.' && ext[k] != '/'
    ensures key.None? ==> ext == ""
  {
    var p := if key.Some? then key.value else "";
    ExtensionShape(p);
    Lower(SplitExt(p).ext)
  }

  /** The extension is a suffix of the lower-cased key. */
  lemma ExtensionIsSuffix(key: string)
    ensures var ext := GetExtension(Some(key));
      |ext| <= |key| && ext == Lower(key)[|key| - |ext|..]
  {
    var r := SplitExt(key);
    assert GetExtension(Some(key)) == Lower(r.ext);
    assert key[|r.root|..] == r.ext;
    LowerSlice(key, |r.root|, |key|);
  }

  /** A last dot with a stem before it in the final component starts the extension. */
  lemma ExtensionAt(p: string, d: int, e: string)
    requires LastComponentDot(p, d) && StemBefore(p, d) && p[d..] == e
    ensures GetExtension(Some(p)) == Lower(e)
  {
    var r := SplitExt(p);
    assert r.ext != "";
    assert |r.root| == d by {
      assert LastComponentDot(p, |r.root|);
    }
    assert p[d..] == r.ext;
  }

  /** Without a dot that could start one, there is no extension. */
  lemma NoExtension(p: string)
    requires forall d :: LastComponentDot(p, d) ==> !StemBefore(p, d)
    ensures GetExtension(Some(p)) == ""
  {
    var r := SplitExt(p);
    assert !(LastComponentDot(p, |r.root|) && StemBefore(p, |r.root|));
  }

  /** An upper-case extension comes back lower-cased. */
  lemma PdfExtension()
    ensures GetExtension(Some("contracts/abc.PDF")) == ".pdf"
  {
    var p := "contracts/abc.PDF";
    PdfKeyDot();
    assert p[13..] == ".PDF";
    ExtensionAt(p, 13, ".PDF");
    assert Lower(".PDF") == ".pdf";
  }

  lemma PdfKeyDot()
    ensures LastComponentDot("contracts/abc.PDF", 13) && StemBefore("contracts/abc.PDF", 13)
  {
    var p := "contracts/abc.PDF";
    assert p[10] != '.' && forall k :: 10 <= k < 13 ==> p[k] != '/';
  }

  /** Only the last extension counts. */
  lemma LastExtension()
    ensures GetExtension(Some("a.tar.gz")) == ".gz"
  {
    var p := "a.tar.gz";
    TarGzKeyDot();
    assert p[5..] == ".gz";
    ExtensionAt(p, 5, ".gz");
    assert Lower(".gz") == ".gz";
  }

  lemma TarGzKeyDot()
    ensures LastComponentDot("a.tar.gz", 5) && StemBefore("a.tar.gz", 5)
  {
    var p := "a.tar.gz";
    assert p[0] != '.' && forall k :: 0 <= k < 5 ==> p[k] != '/';
  }

  /** A file name made of a leading dot and a word has no extension. */
  lemma HiddenFileExtension()
    ensures GetExtension(Some("dir/.pdf")) == ""
  {
    var p := "dir/.pdf";
    forall d | LastComponentDot(p, d)
      ensures !StemBefore(p, d)
    {
      assert d == 4 && p[3] == '/';
    }
    NoExtension(p);
  }

  /** A dot in a directory name does not start an extension. */
  lemma DirectoryDot()
    ensures GetExtension(Some("archive.d/file")) == ""
  {
    var p := "archive.d/file";
    forall d | LastComponentDot(p, d)
      ensures !StemBefore(p, d)
    {
      assert p[9] == '/';
    }
    NoExtension(p);
  }

  lemma NoKeyExtension()
    ensures GetExtension(Some("")) == "" && GetExtension(None) == ""
  {
  }

  /** One Textract block: its `BlockType` and its `Text`, absent when the key is missing. */
  datatype Block = Block(blockType: Option<string>, text: Option<string>)

  /** `b.get("BlockType") == "LINE" and "Text" in b`. */
  predicate IsLine(b: Block)
  {
    b.blockType == Some("LINE") && b.text.Some?
  }

  /** The texts of the LINE blocks of `blocks`, in order. */
  function LineTexts(blocks: seq<Block>): (r: seq<string>)
    ensures |r| <= |blocks|
  {
    if |blocks| == 0 then []
    else
      var b := blocks[|blocks| - 1];
      LineTexts(blocks[..|blocks| - 1]) + (if IsLine(b) then [b.text.value] else [])
  }

  /** `_extract_lines_from_blocks`. */
  method ExtractLines(blocks: seq<Block>) returns (lines: seq<string>)
    ensures lines == LineTexts(blocks)
  {
    lines := [];
    for i := 0 to |blocks|
      invariant lines == LineTexts(blocks[..i])
    {
      var b := blocks[i];
      assert blocks[..i + 1][..i] == blocks[..i];
      if b.blockType == Some("LINE") && b.text.Some? {
        lines := lines + [b.text.value];
      }
    }
    assert blocks[..|blocks|] == blocks;
  }

  /** How many blocks are LINE blocks with a text. */
  function CountLines(blocks: seq<Block>): nat
  {
    if |blocks| == 0 then 0 else CountLines(blocks[..|blocks| - 1]) + (if IsLine(blocks[|blocks| - 1]) then 1 else 0)
  }

  lemma {:induction false} LineTextsAppend(a: seq<Block>, b: seq<Block>)
    ensures LineTexts(a + b) == LineTexts(a) + LineTexts(b)
    decreases |b|
  {
    if |b| == 0 {
      assert a + b == a;
    } else {
      assert (a + b)[..|a + b| - 1] == a + b[..|b| - 1];
      LineTextsAppend(a, b[..|b| - 1]);
    }
  }

  /**
   * Block filtering keeps exactly the LINE blocks: one text per LINE block, each the text of
   * a LINE block, and every LINE block's text appears.
   */
  lemma {:induction false} LineTextsExact(blocks: seq<Block>)
    ensures |LineTexts(blocks)| == CountLines(blocks)
    ensures forall t :: t in LineTexts(blocks) ==> exists i :: 0 <= i < |blocks| && IsLine(blocks[i]) && blocks[i].text == Some(t)
    ensures forall i :: 0 <= i < |blocks| && IsLine(blocks[i]) ==> blocks[i].text.value in LineTexts(blocks)
  {
    if |blocks| != 0 {
      var pre := blocks[..|blocks| - 1];
      LineTextsExact(pre);
      forall t | t in LineTexts(blocks)
        ensures exists i :: 0 <= i < |blocks| && IsLine(blocks[i]) && blocks[i].text == Some(t)
      {
        if t in LineTexts(pre) {
          var i :| 0 <= i < |pre| && IsLine(pre[i]) && pre[i].text == Some(t);
          assert blocks[i] == pre[i];
        } else {
          assert IsLine(blocks[|blocks| - 1]);
        }
      }
      forall i | 0 <= i < |blocks| && IsLine(blocks[i])
        ensures blocks[i].text.value in LineTexts(blocks)
      {
        if i < |pre| {
          assert blocks[i] == pre[i];
        }
      }
    }
  }

  /** What `extract_text_from_s3` returns on success. */
  datatype Extraction = Extraction(nLines: nat, nChars: nat, lines: seq<string>, text: string)

  /** The text is the lines joined by newlines; the counts are those of the lines and the text. */
  function Assemble(lines: seq<string>): (e: Extraction)
    ensures e.lines == lines && e.nLines == |lines|
    ensures e.nChars == if |lines| == 0 then 0 else TotalLength(lines) + |lines| - 1
    ensures e.nChars == |e.text|
  {
    var text := Join(lines, "\n");
    JoinLength(lines, "\n");
    Extraction(|lines|, |text|, lines, text)
  }

  /** The assembled text gives back its lines when none of them holds a newline. */
  lemma AssembleSplits(lines: seq<string>)
    requires |lines| > 0 && forall k :: 0 <= k < |lines| ==> '\n' !in lines[k]
    ensures SplitOn(Assemble(lines).text, '\n') == lines
  {
    SplitJoin(lines, '\n');
  }
}
