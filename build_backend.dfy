/**
 * The string handling of the project's own build backend (build_backend.py):
 * the wheel's `.dist-info` directory name, the splitter for an inline
 * `pyproject.toml` array, the reader of a `key = "value"` table, and the
 * renderers of the METADATA and entry_points.txt files.
 */
module BuildBackend {
  import opened Wrappers
  import opened Text

  /** The `[project]` fields the backend reads from `pyproject.toml`. */
  datatype ProjectMetadata = ProjectMetadata(
    name: string,
    version: string,
    description: string,
    requiresPython: string,
    dependencies: seq<string>,
    scripts: map<string, string>)
  {
    /** The distribution name with every '-' turned into '_'. */
    function NormalizedName(): (r: string)
      ensures |r| == |name|
      ensures forall i :: 0 <= i < |name| ==> r[i] == if name[i] == '-' then '_' else name[i]
    {
      ReplaceChar(name, '-', '_');
      Replace(name, "-", "_")
    }

    /** `<normalized name>-<version>.dist-info`. */
    function DistInfoDir(): string {
      NormalizedName() + "-" + version + ".dist-info"
    }
  }

  /** Reads a `.dist-info` directory name back: the name runs up to the first '-'. */
  function ParseDistInfoDir(d: string): (r: Option<(string, string)>)
    ensures r.Some? ==> '-' !in r.value.0 && d == r.value.0 + "-" + r.value.1 + ".dist-info"
  {
    match IndexOf(d, '-')
    case None => None
    case Some(k) =>
      if EndsWith(d, ".dist-info") && k + 1 <= |d| - 10 then
        assert d == d[..k] + "-" + d[k + 1..|d| - 10] + ".dist-info";
        Some((d[..k], d[k + 1..|d| - 10]))
      else None
  }

  /** The directory name determines the normalised name and the version. */
  lemma DistInfoDirRoundTrip(p: ProjectMetadata)
    ensures '-' !in p.NormalizedName()
    ensures ParseDistInfoDir(p.DistInfoDir()) == Some((p.NormalizedName(), p.version))
  {
    var n := p.NormalizedName();
    assert '-' !in n by {
      forall i | 0 <= i < |n|
        ensures n[i] != '-'
      {
      }
    }
    var d := p.DistInfoDir();
    assert d[..|n|] == n && d[|n|] == '-';
    FirstAt(d, '-', |n|);
    assert d[|n| + 1..|d| - 10] == p.version;
    assert d[|d| - 10..] == ".dist-info";
  }

  /** `IndexOf` lands on `n` when `n` holds the first `c`. */
  lemma {:induction false} FirstAt(s: string, c: char, n: nat)
    requires n < |s| && s[n] == c && c !in s[..n]
    ensures IndexOf(s, c) == Some(n)
    decreases n
  {
    if n > 0 {
      assert s[0] == s[..n][0];
      assert s[1..][..n - 1] == s[..n][1..];
      FirstAt(s[1..], c, n - 1);
    }
  }

  /** `IndexOf` finds a `c` no later than any position that holds one. */
  lemma {:induction false} FirstAtMost(s: string, c: char, k: nat)
    requires k < |s| && s[k] == c
    ensures IndexOf(s, c).Some? && IndexOf(s, c).value <= k
    decreases k
  {
    if s[0] != c {
      FirstAtMost(s[1..], c, k - 1);
    }
  }

  // Quoted values

  /** `s.startswith('"') and s.endswith('"')`: a lone '"' passes both tests. */
  predicate IsQuoted(s: string) {
    |s| > 0 && s[0] == '"' && s[|s| - 1] == '"'
  }

  /** `s[1:-1]` of a quoted string; empty when `s` is the lone '"'. */
  function Unquote(s: string): (r: string)
    requires IsQuoted(s)
    ensures |s| >= 2 ==> s == "\"" + r + "\""
    ensures |s| == 1 ==> r == ""
  {
    if |s| < 2 then "" else s[1..|s| - 1]
  }

  function Quote(s: string): string {
    "\"" + s + "\""
  }

  /** `"\n".join(lines)` and `",".join(pieces)`: the parts with `sep` between them. */
  function JoinWith(parts: seq<string>, sep: char): string
    requires |parts| > 0
    decreases |parts|
  {
    if |parts| == 1 then parts[0]
    else JoinWith(parts[..|parts| - 1], sep) + [sep] + parts[|parts| - 1]
  }

  // The inline-array splitter

  /** The splitter's two flags: inside a double-quoted string, and after a backslash in one. */
  datatype Scan = Scan(inString: bool, escape: bool)

  /** The flags after one more character. */
  function Step(s: Scan, c: char): Scan {
    if s.escape then Scan(s.inString, false)
    else if c == '\\' && s.inString then Scan(true, true)
    else if c == '"' then Scan(!s.inString, false)
    else s
  }

  /** The flags after reading the first `i` characters; an escape is only ever pending inside a string. */
  function ScanAt(t: string, i: nat): (r: Scan)
    requires i <= |t|
    ensures r.escape ==> r.inString
    decreases i
  {
    if i == 0 then Scan(false, false) else Step(ScanAt(t, i - 1), t[i - 1])
  }

  function ScanOf(t: string): Scan {
    ScanAt(t, |t|)
  }

  /** Position `i` ends an item: a ',' read outside any string. */
  predicate IsSeparator(t: string, i: nat)
    requires i < |t|
  {
    t[i] == ',' && !ScanAt(t, i).escape && !ScanAt(t, i).inString
  }

  /** The pieces with `s` added to the last one. */
  function Extend(p: seq<string>, s: string): (r: seq<string>)
    requires |p| > 0
    ensures |r| == |p| && r[..|r| - 1] == p[..|p| - 1] && r[|r| - 1] == p[|p| - 1] + s
  {
    p[..|p| - 1] + [p[|p| - 1] + s]
  }

  lemma ExtendTwice(p: seq<string>, s: string, s2: string)
    requires |p| > 0
    ensures Extend(Extend(p, s), s2) == Extend(p, s + s2)
  {
    assert p[|p| - 1] + s + s2 == p[|p| - 1] + (s + s2);
  }

  lemma ExtendFresh(p: seq<string>, s: string)
    ensures Extend(p + [""], s) == p + [s]
  {
    assert (p + [""])[..|p|] == p;
    assert "" + s == s;
  }

  lemma ExtendNothing(p: seq<string>)
    requires |p| > 0
    ensures Extend(p, []) == p
  {
    assert p[|p| - 1] + [] == p[|p| - 1];
  }

  /** The raw text between the separators among the first `i` characters; every other character stays in its piece. */
  function PiecesAt(t: string, i: nat): (r: seq<string>)
    requires i <= |t|
    ensures |r| > 0
    decreases i
  {
    if i == 0 then [""]
    else if IsSeparator(t, i - 1) then PiecesAt(t, i - 1) + [""]
    else Extend(PiecesAt(t, i - 1), [t[i - 1]])
  }

  function Pieces(t: string): seq<string> {
    PiecesAt(t, |t|)
  }

  /** What follows the first `i` characters does not change how they are read. */
  lemma {:induction false} PrefixAgrees(t: string, u: string, i: nat)
    requires i <= |t|
    ensures ScanAt(t + u, i) == ScanAt(t, i)
    ensures PiecesAt(t + u, i) == PiecesAt(t, i)
    decreases i
  {
    if i > 0 {
      PrefixAgrees(t, u, i - 1);
      assert (t + u)[i - 1] == t[i - 1];
    }
  }

  /** A piece becomes an item only when, stripped, it is quoted; the outer quotes go. */
  function KeepOne(piece: string): seq<string> {
    var item := Strip(piece);
    if IsQuoted(item) then [Unquote(item)] else []
  }

  /** The items of the pieces that are quoted strings once stripped, unquoted, in piece order. */
  function Kept(pieces: seq<string>): (r: seq<string>)
    ensures |r| <= |pieces|
    ensures forall x :: x in r <==> exists i :: 0 <= i < |pieces| && x in KeepOne(pieces[i])
    decreases |pieces|
  {
    if pieces == [] then []
    else
      var init := pieces[..|pieces| - 1];
      assert pieces == init + [pieces[|pieces| - 1]];
      KeptMembers(init, pieces[|pieces| - 1], Kept(init));
      Kept(init) + KeepOne(pieces[|pieces| - 1])
  }

  /** The membership step behind `Kept`: one more piece adds exactly its own item. */
  lemma KeptMembers(init: seq<string>, piece: string, k: seq<string>)
    requires forall x :: x in k <==> exists i :: 0 <= i < |init| && x in KeepOne(init[i])
    ensures forall x :: x in k + KeepOne(piece) <==>
      exists i :: 0 <= i < |init + [piece]| && x in KeepOne((init + [piece])[i])
  {
    var all := init + [piece];
    forall x | x in k + KeepOne(piece)
      ensures exists i :: 0 <= i < |all| && x in KeepOne(all[i])
    {
      if x in k {
        var i :| 0 <= i < |init| && x in KeepOne(init[i]);
        assert all[i] == init[i];
      } else {
        assert all[|init|] == piece;
      }
    }
    forall x, i | 0 <= i < |all| && x in KeepOne(all[i])
      ensures x in k + KeepOne(piece)
    {
      if i < |init| {
        assert all[i] == init[i];
      }
    }
  }

  lemma KeptSnoc(pieces: seq<string>, piece: string)
    ensures Kept(pieces + [piece]) == Kept(pieces) + KeepOne(piece)
  {
    assert (pieces + [piece])[..|pieces|] == pieces;
  }

  /** Reading one more character: the flags take a step and the pieces grow by the rules above. */
  lemma PiecesSnoc(t: string, c: char)
    ensures ScanOf(t + [c]) == Step(ScanOf(t), c)
    ensures Pieces(t + [c]) ==
      if c == ',' && !ScanOf(t).inString then Pieces(t) + [""] else Extend(Pieces(t), [c])
  {
    PrefixAgrees(t, [c], |t|);
    assert (t + [c])[|t|] == c;
  }

  /** Splits the inside of an inline array at the commas that lie outside strings. */
  method SplitInlineList(text: string) returns (items: seq<string>)
    ensures items == Kept(Pieces(text))
  {
    items := [];
    var current: string := "";
    var inString, escape := false, false;
    ghost var done: seq<string> := [];
    var i := 0;
    while i < |text|
      invariant i <= |text|
      invariant Scan(inString, escape) == ScanAt(text, i)
      invariant PiecesAt(text, i) == done + [current]
      invariant items == Kept(done)
    {
      inString, escape, done, current, items := ReadChar(text, i, inString, escape, done, current, items);
      i := i + 1;
    }
    items := FinishItem(items, done, current);
  }

  /**
   * One pass of that loop over character `i`: an escaped character, a
   * backslash inside a string, a quote and any character but a separating
   * ',' join the open piece; a separating ',' ends the item.
   */
  method ReadChar(text: string, i: nat, inString: bool, escape: bool, ghost done: seq<string>, current: string,
                  items: seq<string>)
    returns (inString': bool, escape': bool, ghost done': seq<string>, current': string, items': seq<string>)
    requires i < |text| && Scan(inString, escape) == ScanAt(text, i)
    requires PiecesAt(text, i) == done + [current] && items == Kept(done)
    ensures Scan(inString', escape') == ScanAt(text, i + 1)
    ensures PiecesAt(text, i + 1) == done' + [current'] && items' == Kept(done')
  {
    var c := text[i];
    ScanStep(text, i);
    inString', escape', done', current', items' := inString, escape, done, current, items;
    if escape {
      JoinsPiece(text, i, inString, escape, done, current);
      current' := current + [c];
      escape' := false;
    } else if c == '\\' && inString {
      JoinsPiece(text, i, inString, escape, done, current);
      escape' := true;
      current' := current + [c];
    } else if c == '"' {
      JoinsPiece(text, i, inString, escape, done, current);
      inString' := !inString;
      current' := current + [c];
    } else if c == ',' && !inString {
      EndsPiece(text, i, done, current);
      items' := FinishItem(items, done, current);
      done' := done + [current];
      current' := "";
    } else {
      JoinsPiece(text, i, inString, escape, done, current);
      current' := current + [c];
    }
  }

  /** Reading character `i` takes the flags one step. */
  lemma ScanStep(t: string, i: nat)
    requires i < |t|
    ensures ScanAt(t, i + 1) == Step(ScanAt(t, i), t[i])
  {
  }

  /** A character that is not a separator joins the open piece. */
  lemma JoinsPiece(t: string, i: nat, inString: bool, escape: bool, done: seq<string>, current: string)
    requires i < |t| && Scan(inString, escape) == ScanAt(t, i) && PiecesAt(t, i) == done + [current]
    requires !(t[i] == ',' && !escape && !inString)
    ensures PiecesAt(t, i + 1) == done + [current + [t[i]]]
  {
    assert (done + [current])[..|done|] == done;
  }

  /** A separator closes the open piece and opens an empty one. */
  lemma EndsPiece(t: string, i: nat, done: seq<string>, current: string)
    requires i < |t| && IsSeparator(t, i) && PiecesAt(t, i) == done + [current]
    ensures PiecesAt(t, i + 1) == done + [current] + [""]
  {
  }

  /** The end of a piece: stripped, and kept without its quotes only when quoted. */
  method FinishItem(items: seq<string>, ghost done: seq<string>, current: string) returns (next: seq<string>)
    requires items == Kept(done)
    ensures next == Kept(done + [current])
  {
    KeptSnoc(done, current);
    var item := Strip(current);
    next := items;
    if IsQuoted(item) {
      next := next + [Unquote(item)];
    }
  }


  /** Joining after a character is added to the last piece: the character comes last. */
  lemma JoinExtend(p: seq<string>, c: char, sep: char)
    requires |p| > 0
    ensures JoinWith(Extend(p, [c]), sep) == JoinWith(p, sep) + [c]
  {
    var q := Extend(p, [c]);
    if |p| > 1 {
      assert q[..|q| - 1] == p[..|p| - 1];
    }
  }

  /** Joining after a fresh empty piece: the separator comes last. */
  lemma JoinFresh(p: seq<string>, sep: char)
    requires |p| > 0
    ensures JoinWith(p + [""], sep) == JoinWith(p, sep) + [sep]
  {
    assert (p + [""])[..|p|] == p;
  }

  lemma SliceSnoc(t: string, i: nat)
    requires 0 < i <= |t|
    ensures t[..i] == t[..i - 1] + [t[i - 1]]
  {
  }

  /** Putting the separator commas back between the pieces gives the text read so far. */
  lemma {:induction false} PiecesJoinAt(t: string, i: nat)
    requires i <= |t|
    ensures JoinWith(PiecesAt(t, i), ',') == t[..i]
    decreases i
  {
    if i > 0 {
      PiecesJoinAt(t, i - 1);
      JoinStep(t, i);
    }
  }

  /** Reading character `i - 1` adds exactly that character to the joined pieces. */
  lemma JoinStep(t: string, i: nat)
    requires 0 < i <= |t|
    requires JoinWith(PiecesAt(t, i - 1), ',') == t[..i - 1]
    ensures JoinWith(PiecesAt(t, i), ',') == t[..i]
  {
    SliceSnoc(t, i);
    if IsSeparator(t, i - 1) {
      JoinSeparator(t, i);
    } else {
      JoinExtend(PiecesAt(t, i - 1), t[i - 1], ',');
    }
  }

  /** A separator comma opens a fresh piece; joining puts the comma back. */
  lemma JoinSeparator(t: string, i: nat)
    requires 0 < i <= |t| && IsSeparator(t, i - 1)
    ensures JoinWith(PiecesAt(t, i), ',') == JoinWith(PiecesAt(t, i - 1), ',') + [t[i - 1]]
  {
    JoinFresh(PiecesAt(t, i - 1), ',');
  }

  lemma PiecesJoin(t: string)
    ensures JoinWith(Pieces(t), ',') == t
  {
    PiecesJoinAt(t, |t|);
    assert t[..|t|] == t;
  }

  /** Without any '"', every ',' separates: no piece holds a comma. */
  lemma {:induction false} QuoteFreeAt(t: string, i: nat)
    requires '"' !in t && i <= |t|
    ensures ScanAt(t, i) == Scan(false, false)
    ensures forall k :: 0 <= k < |PiecesAt(t, i)| ==> ',' !in PiecesAt(t, i)[k]
    decreases i
  {
    if i > 0 {
      QuoteFreeAt(t, i - 1);
      assert t[i - 1] in t;
    }
  }

  lemma QuoteFreePieces(t: string)
    requires '"' !in t
    ensures forall k :: 0 <= k < |Pieces(t)| ==> ',' !in Pieces(t)[k]
  {
    QuoteFreeAt(t, |t|);
  }

  /** Inside a string free of '"' and '\\', no character changes the flags or ends the piece. */
  lemma BodyParts(u: string, x: string, j: nat)
    requires j <= |x|
    ensures j == 0 ==> u + x[..j] == u
    ensures j > 0 ==> u + x[..j] == (u + x[..j - 1]) + [x[j - 1]]
    ensures j > 0 ==> x[..j - 1] + [x[j - 1]] == x[..j] && x[j - 1] in x
  {
  }

  lemma {:induction false} QuotedBody(u: string, x: string, j: nat)
    requires ScanOf(u) == Scan(true, false)
    requires '"' !in x && '\\' !in x && j <= |x|
    ensures ScanOf(u + x[..j]) == Scan(true, false)
    ensures Pieces(u + x[..j]) == Extend(Pieces(u), x[..j])
    decreases j
  {
    BodyParts(u, x, j);
    if j == 0 {
      ExtendNothing(Pieces(u));
    } else {
      QuotedBody(u, x, j - 1);
      PiecesSnoc(u + x[..j - 1], x[j - 1]);
      ExtendTwice(Pieces(u), x[..j - 1], [x[j - 1]]);
    }
  }

  lemma QuoteParts(t: string, x: string)
    ensures x[..|x|] == x
    ensures t + Quote(x) == ((t + ['"']) + x) + ['"']
    ensures ['"'] + x + ['"'] == Quote(x)
  {
  }

  /** A whole quoted string free of '"' and '\\' joins the current piece and leaves the flags as they were. */
  lemma QuotedWhole(t: string, x: string)
    requires ScanOf(t) == Scan(false, false)
    requires '"' !in x && '\\' !in x
    ensures ScanOf(t + Quote(x)) == Scan(false, false)
    ensures Pieces(t + Quote(x)) == Extend(Pieces(t), Quote(x))
  {
    var u := t + ['"'];
    QuoteParts(t, x);
    PiecesSnoc(t, '"');
    QuotedBody(u, x, |x|);
    PiecesSnoc(u + x, '"');
    ExtendTwice(Pieces(t), ['"'], x);
    ExtendTwice(Pieces(t), ['"'] + x, ['"']);
  }

  /** An inline array as it is written: `"a", "b", "c"`. */
  function InlineList(xs: seq<string>): string
    decreases |xs|
  {
    if xs == [] then ""
    else if |xs| == 1 then Quote(xs[0])
    else InlineList(xs[..|xs| - 1]) + ", " + Quote(xs[|xs| - 1])
  }

  /** A quoted string, with or without one space before it, is kept as its inside. */
  lemma StripQuoted(x: string, padded: bool)
    ensures KeepOne((if padded then " " else "") + Quote(x)) == [x]
  {
    var q := Quote(x);
    if padded {
      assert (" " + q)[1..] == q;
    }
    assert TrimStart((if padded then " " else "") + q) == q;
    assert Strip((if padded then " " else "") + q) == q;
    assert Unquote(q) == x by {
      assert q[1..|q| - 1] == x;
    }
  }

  /** One more written item after a complete array: `, "x"` adds the piece ` "x"`. */
  lemma AppendItem(l: string, x: string)
    requires ScanOf(l) == Scan(false, false)
    requires '"' !in x && '\\' !in x
    ensures ScanOf(l + ", " + Quote(x)) == Scan(false, false)
    ensures Pieces(l + ", " + Quote(x)) == Pieces(l) + [" " + Quote(x)]
  {
    var p := Pieces(l);
    PiecesSnoc(l, ',');
    PiecesSnoc(l + ",", ' ');
    assert l + ", " == (l + ",") + [' '];
    ExtendFresh(p, " ");
    assert Pieces(l + ", ") == p + [" "];
    QuotedWhole(l + ", ", x);
    ExtendTwice(p + [""], " ", Quote(x));
    ExtendFresh(p, " " + Quote(x));
  }

  /** Splitting a written inline array gives back its strings, commas inside them included. */
  lemma {:induction false} InlineListRoundTrip(xs: seq<string>)
    requires forall k :: 0 <= k < |xs| ==> '"' !in xs[k] && '\\' !in xs[k]
    ensures ScanOf(InlineList(xs)) == Scan(false, false)
    ensures Kept(Pieces(InlineList(xs))) == xs
    decreases |xs|
  {
    if xs == [] {
      assert Pieces("") == [""];
      assert Kept([""]) == Kept([]) + KeepOne("");
    } else if |xs| == 1 {
      QuotedWhole("", xs[0]);
      StripQuoted(xs[0], false);
      assert "" + Quote(xs[0]) == InlineList(xs);
      ExtendNothing([""]);
      assert Extend([""], Quote(xs[0])) == [Quote(xs[0])];
      KeptSnoc([], Quote(xs[0]));
    } else {
      var init, x := xs[..|xs| - 1], xs[|xs| - 1];
      assert xs == init + [x];
      InlineListRoundTrip(init);
      var l := InlineList(init);
      AppendItem(l, x);
      assert InlineList(xs) == l + ", " + Quote(x);
      StripQuoted(x, true);
      KeptSnoc(Pieces(l), " " + Quote(x));
      assert Kept(Pieces(InlineList(xs))) == init + [x];
    }
  }

  // The key/value table reader

  /** A slice holds no character its sequence lacks. */
  lemma SliceLacks(s: string, c: char, lo: nat, hi: nat)
    requires c !in s && lo <= hi <= |s|
    ensures c !in s[lo..hi]
  {
    forall j | 0 <= j < hi - lo
      ensures s[lo..hi][j] != c
    {
      assert s[lo..hi][j] == s[lo + j];
      assert s[lo + j] in s;
    }
  }

  /** Stripping keeps a slice, so it never brings in a character. */
  lemma StripKeeps(s: string, c: char)
    requires c !in s
    ensures c !in Strip(s)
  {
    var k := StripSlice(s);
    SliceLacks(s, c, k, k + |Strip(s)|);
  }

  /**
   * One line of a `key = "value"` table: the text after the first '#' goes,
   * a line without '=' is skipped, the key and value are split at the first
   * '=' and stripped, and only a quoted value is kept, without its quotes.
   */
  function ParseKv(line: string): Option<(string, string)> {
    var body := Strip(Before(line, '#'));
    match IndexOf(body, '=')
    case None => None
    case Some(k) =>
      var key := Strip(body[..k]);
      var value := Strip(body[k + 1..]);
      if IsQuoted(value) then Some((key, Unquote(value))) else None
  }

  /** A parsed key holds no '=' and no '#', and a parsed value no '#'. */
  lemma ParseKvShape(line: string)
    ensures ParseKv(line).Some? ==>
      '=' !in ParseKv(line).value.0 && '#' !in ParseKv(line).value.0 && '#' !in ParseKv(line).value.1
  {
    var body := Strip(Before(line, '#'));
    StripKeeps(Before(line, '#'), '#');
    match IndexOf(body, '=') {
      case None =>
      case Some(k) =>
        SliceLacks(body, '#', 0, k);
        SliceLacks(body, '#', k + 1, |body|);
        assert body[..k] == body[0..k];
        StripKeeps(body[..k], '=');
        StripKeeps(body[..k], '#');
        StripKeeps(body[k + 1..], '#');
        var value := Strip(body[k + 1..]);
        if IsQuoted(value) {
          SliceLacks(value, '#', 1, if |value| >= 2 then |value| - 1 else 1);
        }
    }
  }

  /** Each line of a block, parsed. */
  function Parsed(lines: seq<string>): (r: seq<Option<(string, string)>>)
    ensures |r| == |lines|
  {
    if lines == [] then [] else Parsed(lines[..|lines| - 1]) + [ParseKv(lines[|lines| - 1])]
  }

  lemma {:induction false} ParsedAt(lines: seq<string>, n: nat)
    requires n < |lines|
    ensures Parsed(lines)[n] == ParseKv(lines[n])
    decreases |lines|
  {
    if n < |lines| - 1 {
      ParsedAt(lines[..|lines| - 1], n);
    }
  }

  /** The dictionary after the first `i` parsed lines, in order; a later key overrides an earlier one. */
  function CollectAt(es: seq<Option<(string, string)>>, i: nat): map<string, string>
    requires i <= |es|
    decreases i
  {
    if i == 0 then map[]
    else
      match es[i - 1]
      case None => CollectAt(es, i - 1)
      case Some((key, value)) => CollectAt(es, i - 1)[key := value]
  }

  function KvFold(lines: seq<string>): map<string, string> {
    CollectAt(Parsed(lines), |lines|)
  }

  /** Reads every `key = "value"` line of a table block into a dictionary. */
  method ExtractKvPairs(block: string) returns (entries: map<string, string>)
    ensures entries == KvFold(SplitLines(block))
  {
    var lines := SplitLines(block);
    entries := CollectLines(lines);
  }

  /** The loop of `ExtractKvPairs` over the block's lines. */
  method CollectLines(lines: seq<string>) returns (entries: map<string, string>)
    ensures entries == CollectAt(Parsed(lines), |lines|)
  {
    entries := map[];
    ghost var es := Parsed(lines);
    for i := 0 to |lines|
      invariant entries == CollectAt(es, i)
    {
      entries := CollectLine(lines, es, i, entries);
    }
  }

  /** One pass of that loop: line `i` is parsed and, when it is an assignment, written over the dictionary. */
  method CollectLine(lines: seq<string>, ghost es: seq<Option<(string, string)>>, i: nat, before: map<string, string>)
    returns (after: map<string, string>)
    requires i < |lines| && es == Parsed(lines) && before == CollectAt(es, i)
    ensures after == CollectAt(es, i + 1)
  {
    var entry := ParseKv(lines[i]);
    ParsedAt(lines, i);
    CollectStep(es, i, before, entry);
    after := before;
    if entry.Some? {
      after := after[entry.value.0 := entry.value.1];
    }
  }

  /** One more parsed line: its entry, if any, is written over the dictionary. */
  lemma CollectStep(es: seq<Option<(string, string)>>, i: nat, before: map<string, string>, entry: Option<(string, string)>)
    requires i < |es| && before == CollectAt(es, i) && entry == es[i]
    ensures CollectAt(es, i + 1) == if entry.Some? then before[entry.value.0 := entry.value.1] else before
  {
  }

  /** Entry `n` is for `key`. */
  predicate Defines(es: seq<Option<(string, string)>>, n: int, key: string)
    requires 0 <= n < |es|
  {
    es[n].Some? && es[n].value.0 == key
  }

  /** Entry `n`, among the first `i`, gives `key` the value `v`, and no later one of them is for `key`. */
  predicate LastDefines(es: seq<Option<(string, string)>>, i: nat, n: int, key: string, v: string)
    requires i <= |es|
  {
    0 <= n < i && es[n] == Some((key, v))
    && forall j :: n < j < i ==> !Defines(es, j, key)
  }

  /** A key is present after `i` entries iff one of them is for it. */
  lemma {:induction false} CollectPresent(es: seq<Option<(string, string)>>, i: nat, key: string)
    requires i <= |es|
    ensures key in CollectAt(es, i) <==> exists n :: 0 <= n < i && Defines(es, n, key)
    decreases i
  {
    if i > 0 {
      CollectPresent(es, i - 1, key);
      if Defines(es, i - 1, key) {
        assert key in CollectAt(es, i);
      } else {
        assert key in CollectAt(es, i) <==> key in CollectAt(es, i - 1);
        assert (exists n :: 0 <= n < i && Defines(es, n, key)) <==> (exists n :: 0 <= n < i - 1 && Defines(es, n, key));
      }
    }
  }

  /** A present key holds the value of the last of the first `i` entries for it. */
  lemma {:induction false} CollectLastWins(es: seq<Option<(string, string)>>, i: nat, key: string)
    requires i <= |es| && key in CollectAt(es, i)
    ensures exists n :: LastDefines(es, i, n, key, CollectAt(es, i)[key])
    decreases i
  {
    if Defines(es, i - 1, key) {
      assert LastDefines(es, i, i - 1, key, CollectAt(es, i)[key]);
    } else {
      CollectLastWins(es, i - 1, key);
      var n :| LastDefines(es, i - 1, n, key, CollectAt(es, i - 1)[key]);
      assert LastDefines(es, i, n, key, CollectAt(es, i)[key]);
    }
  }

  /** A line as a TOML writer puts it: `key = "value"`. */
  function KvLine(key: string, value: string): string {
    key + " = " + Quote(value)
  }

  /** The key part `key ` of a written line strips back to `key`. */
  lemma StripKeyPart(key: string)
    requires |key| > 0 && !IsSpace(key[0]) && !IsSpace(key[|key| - 1])
    ensures Strip(key + " ") == key
  {
    assert TrimStart(key + " ") == key + " ";
    assert (key + " ")[..|key|] == key;
    assert TrimEnd(key + " ") == TrimEnd(key);
    assert TrimEnd(key) == key;
  }

  /** A written line holds no comment mark when neither key nor value does. */
  lemma KvLineUncommented(key: string, value: string)
    requires '#' !in key && '#' !in value
    ensures '#' !in KvLine(key, value)
  {
    var line := KvLine(key, value);
    var n := |key|;
    forall j | 0 <= j < |line|
      ensures line[j] != '#'
    {
      if j < n {
        assert line[j] == key[j];
      } else if n + 4 <= j < |line| - 1 {
        assert line[j] == value[j - n - 4];
      }
    }
  }

  lemma KvLineParts(key: string, value: string)
    requires |key| > 0 && !IsSpace(key[0]) && '=' !in key && '#' !in KvLine(key, value)
    ensures Before(KvLine(key, value), '#') == KvLine(key, value)
    ensures KvLine(key, value)[0] == key[0] && KvLine(key, value)[|KvLine(key, value)| - 1] == '"'
    ensures KvLine(key, value)[..|key| + 1] == key + " " && '=' !in key + " "
    ensures KvLine(key, value)[|key| + 1] == '='
    ensures KvLine(key, value)[|key| + 2..] == " " + Quote(value)
  {
  }

  /** A written `key = "value"` line reads back as that entry. */
  lemma KvLineRoundTrip(key: string, value: string)
    requires |key| > 0 && !IsSpace(key[0]) && !IsSpace(key[|key| - 1])
    requires '=' !in key && '#' !in key && '#' !in value
    ensures ParseKv(KvLine(key, value)) == Some((key, value))
  {
    var line := KvLine(key, value);
    var n := |key|;
    KvLineUncommented(key, value);
    KvLineParts(key, value);
    StripStripped(line);
    FirstAt(line, '=', n + 1);
    StripKeyPart(key);
    StripQuoted(value, true);
  }

  /** An '=' that only appears after the comment mark does not make an entry. */
  lemma CommentedOut(line: string, k: nat)
    requires k < |line| && line[k] == '#' && '=' !in line[..k]
    ensures ParseKv(line).None?
  {
    FirstAtMost(line, '#', k);
    var m := IndexOf(line, '#').value;
    SliceLacks(line[..k], '=', 0, m);
    assert line[..k][0..m] == Before(line, '#');
    StripKeeps(Before(line, '#'), '=');
  }

  // Rendering

  /** Every line followed by a newline. */
  function Terminated(lines: seq<string>): string
    decreases |lines|
  {
    if lines == [] then "" else lines[0] + "\n" + Terminated(lines[1..])
  }

  lemma {:induction false} TerminatedSnoc(lines: seq<string>, l: string)
    ensures Terminated(lines + [l]) == Terminated(lines) + l + "\n"
    decreases |lines|
  {
    if lines != [] {
      assert (lines + [l])[1..] == lines[1..] + [l];
      TerminatedSnoc(lines[1..], l);
    }
  }

  /** `"\n".join(lines) + "\n"` ends every line, the last included, with a newline. */
  lemma {:induction false} JoinTerminated(lines: seq<string>)
    requires |lines| > 0
    ensures JoinWith(lines, '\n') + "\n" == Terminated(lines)
    decreases |lines|
  {
    var init := lines[..|lines| - 1];
    assert lines == init + [lines[|lines| - 1]];
    TerminatedSnoc(init, lines[|lines| - 1]);
    if |lines| > 1 {
      JoinTerminated(init);
    } else {
      assert init == [];
    }
  }

  /** Splits a newline-terminated text at each '\n'. */
  function NewlineLines(s: string): seq<string>
    decreases |s|
  {
    match IndexOf(s, '\n')
    case None => if s == [] then [] else [s]
    case Some(k) => [s[..k]] + NewlineLines(s[k + 1..])
  }

  /** Lines without a '\n' of their own come back from the rendered text one by one. */
  lemma TerminatedParts(lines: seq<string>)
    requires |lines| > 0
    ensures Terminated(lines)[..|lines[0]|] == lines[0]
    ensures Terminated(lines)[|lines[0]|] == '\n'
    ensures Terminated(lines)[|lines[0]| + 1..] == Terminated(lines[1..])
  {
  }

  lemma {:induction false} TerminatedReadsBack(lines: seq<string>)
    requires forall k :: 0 <= k < |lines| ==> '\n' !in lines[k]
    ensures NewlineLines(Terminated(lines)) == lines
    decreases |lines|
  {
    if lines != [] {
      var l := lines[0];
      var s := Terminated(lines);
      TerminatedParts(lines);
      FirstAt(s, '\n', |l|);
      TerminatedReadsBack(lines[1..]);
    }
  }

  /** The five fixed header lines of METADATA. */
  function MetadataHeader(p: ProjectMetadata): seq<string> {
    [ "Metadata-Version: 2.1",
      "Name: " + p.name,
      "Version: " + p.version,
      "Summary: " + p.description,
      "Requires-Python: " + p.requiresPython ]
  }

  /** One `Requires-Dist:` line per dependency, in order. */
  function DistLines(deps: seq<string>): (r: seq<string>)
    ensures |r| == |deps|
    ensures forall i :: 0 <= i < |deps| ==> r[i] == "Requires-Dist: " + deps[i]
  {
    seq(|deps|, i requires 0 <= i < |deps| => "Requires-Dist: " + deps[i])
  }

  /** The METADATA file: the header lines, then the dependency lines, each ended by a newline. */
  method RenderMetadata(p: ProjectMetadata) returns (text: string)
    ensures text == Terminated(MetadataHeader(p) + DistLines(p.dependencies))
  {
    var lines := MetadataHeader(p);
    for i := 0 to |p.dependencies|
      invariant lines == MetadataHeader(p) + DistLines(p.dependencies[..i])
    {
      lines := lines + ["Requires-Dist: " + p.dependencies[i]];
    }
    assert p.dependencies[..|p.dependencies|] == p.dependencies;
    JoinTerminated(lines);
    text := JoinWith(lines, '\n') + "\n";
  }

  /** With no line break in any field, METADATA reads back as its header and dependency lines. */
  lemma MetadataReadsBack(p: ProjectMetadata)
    requires '\n' !in p.name && '\n' !in p.version && '\n' !in p.description && '\n' !in p.requiresPython
    requires forall k :: 0 <= k < |p.dependencies| ==> '\n' !in p.dependencies[k]
    ensures
      var lines := NewlineLines(Terminated(MetadataHeader(p) + DistLines(p.dependencies)));
      |lines| == 5 + |p.dependencies| && lines[..5] == MetadataHeader(p)
      && forall i :: 0 <= i < |p.dependencies| ==> lines[5 + i] == "Requires-Dist: " + p.dependencies[i]
  {
    var ls := MetadataHeader(p) + DistLines(p.dependencies);
    forall k | 0 <= k < |ls|
      ensures '\n' !in ls[k]
    {
      if k >= 5 {
        assert ls[k] == "Requires-Dist: " + p.dependencies[k - 5];
      }
    }
    TerminatedReadsBack(ls);
  }

  // Entry points

  /** Python's `<` on strings: code point by code point, a proper prefix first. */
  predicate Below(a: string, b: string)
    decreases |a|
  {
    if a == [] then b != []
    else if b == [] then false
    else if a[0] != b[0] then a[0] < b[0]
    else Below(a[1..], b[1..])
  }

  lemma {:induction false} BelowIrreflexive(a: string)
    ensures !Below(a, a)
    decreases |a|
  {
    if a != [] {
      BelowIrreflexive(a[1..]);
    }
  }

  lemma {:induction false} BelowTotal(a: string, b: string)
    ensures a == b || Below(a, b) || Below(b, a)
    decreases |a|
  {
    if a != [] && b != [] && a[0] == b[0] {
      BelowTotal(a[1..], b[1..]);
      if a[1..] == b[1..] {
        assert a == [a[0]] + a[1..] && b == [b[0]] + b[1..];
      }
    }
  }

  lemma {:induction false} BelowAsymmetric(a: string, b: string)
    requires Below(a, b)
    ensures !Below(b, a)
    decreases |a|
  {
    if a != [] && a[0] == b[0] {
      BelowAsymmetric(a[1..], b[1..]);
    }
  }

  lemma {:induction false} BelowTransitive(a: string, b: string, c: string)
    requires Below(a, b) && Below(b, c)
    ensures Below(a, c)
    decreases |a|
  {
    if a != [] && a[0] == b[0] && b[0] == c[0] {
      BelowTransitive(a[1..], b[1..], c[1..]);
    }
  }

  predicate StrictlySorted(s: seq<string>) {
    forall i, j :: 0 <= i < j < |s| ==> Below(s[i], s[j])
  }

  lemma ConsSorted(h: string, s: seq<string>)
    requires StrictlySorted(s)
    requires forall y :: y in s ==> Below(h, y)
    ensures StrictlySorted([h] + s)
  {
    forall i, j | 0 <= i < j < |[h] + s|
      ensures Below(([h] + s)[i], ([h] + s)[j])
    {
      if i == 0 {
        assert s[j - 1] in s;
      }
    }
  }

  /** Places `x` in a strictly sorted sequence that lacks it. */
  function Insert(s: seq<string>, x: string): (r: seq<string>)
    requires StrictlySorted(s) && x !in s
    ensures StrictlySorted(r) && |r| == |s| + 1
    ensures forall y :: y in r <==> y in s || y == x
    decreases |s|
  {
    if s == [] then [x]
    else if Below(x, s[0]) then
      FirstIsLeast(x, s);
      [x] + s
    else
      BelowTotal(x, s[0]);
      var r := Insert(s[1..], x);
      assert forall y :: y in s[1..] ==> Below(s[0], y) by {
        forall y | y in s[1..]
          ensures Below(s[0], y)
        {
          var j :| 0 <= j < |s[1..]| && s[1..][j] == y;
          assert s[j + 1] == y;
        }
      }
      ConsSorted(s[0], r);
      assert s == [s[0]] + s[1..];
      [s[0]] + r
  }

  lemma FirstIsLeast(x: string, s: seq<string>)
    requires StrictlySorted(s) && |s| > 0 && Below(x, s[0])
    ensures StrictlySorted([x] + s)
  {
    forall y | y in s
      ensures Below(x, y)
    {
      var j :| 0 <= j < |s| && s[j] == y;
      if j > 0 {
        BelowTransitive(x, s[0], y);
      }
    }
    ConsSorted(x, s);
  }

  /** Two strictly sorted sequences of the same strings are the same sequence. */
  lemma {:induction false} SortedUnique(a: seq<string>, b: seq<string>)
    requires StrictlySorted(a) && StrictlySorted(b)
    requires forall y :: y in a <==> y in b
    ensures a == b
    decreases |a|
  {
    if a != [] {
      assert a[0] in a;
    }
    if b != [] {
      assert b[0] in b;
    }
    if a != [] && b != [] {
      if a[0] != b[0] {
        assert a[0] in b && b[0] in a;
        var i :| 0 <= i < |a| && a[i] == b[0];
        var j :| 0 <= j < |b| && b[j] == a[0];
        BelowAsymmetric(a[0], b[0]);
        assert false;
      }
      forall y
        ensures y in a[1..] <==> y in b[1..]
      {
        if y in a[1..] {
          var i :| 0 <= i < |a[1..]| && a[1..][i] == y;
          assert Below(a[0], a[i + 1]);
          BelowIrreflexive(y);
          assert y in b;
          var j :| 0 <= j < |b| && b[j] == y;
          assert j != 0;
          assert y == b[1..][j - 1];
        }
        if y in b[1..] {
          var j :| 0 <= j < |b[1..]| && b[1..][j] == y;
          assert Below(b[0], b[j + 1]);
          BelowIrreflexive(y);
          assert y in a;
          var i :| 0 <= i < |a| && a[i] == y;
          assert i != 0;
          assert y == a[1..][i - 1];
        }
      }
      SortedUnique(a[1..], b[1..]);
      assert a == [a[0]] + a[1..] && b == [b[0]] + b[1..];
    }
  }

  /** The script names in Python's sorted order. */
  method SortedNames(names: set<string>) returns (sorted: seq<string>)
    ensures StrictlySorted(sorted)
    ensures forall y :: y in sorted <==> y in names
  {
    sorted := [];
    var rest := names;
    while rest != {}
      invariant rest <= names
      invariant StrictlySorted(sorted)
      invariant forall y :: y in sorted <==> y in names && y !in rest
      decreases rest
    {
      var x :| x in rest;
      sorted := Insert(sorted, x);
      rest := rest - {x};
    }
  }

  /** `name = target` for each name, in the order given. */
  function ScriptLines(names: seq<string>, scripts: map<string, string>): (r: seq<string>)
    requires forall k :: 0 <= k < |names| ==> names[k] in scripts
    ensures |r| == |names|
    ensures forall i :: 0 <= i < |names| ==> r[i] == names[i] + " = " + scripts[names[i]]
  {
    seq(|names|, i requires 0 <= i < |names| => names[i] + " = " + scripts[names[i]])
  }

  /**
   * entry_points.txt: empty without scripts, otherwise a `[console_scripts]`
   * line and one `name = target` line per script sorted by name, each ended
   * by a newline. `names` is that sorted order, which the scripts alone fix.
   */
  method RenderEntryPoints(p: ProjectMetadata) returns (text: string, ghost names: seq<string>)
    ensures StrictlySorted(names) && forall y :: y in names <==> y in p.scripts
    ensures |p.scripts| == 0 ==> text == ""
    ensures |p.scripts| > 0 ==> text == Terminated(["[console_scripts]"] + ScriptLines(names, p.scripts))
  {
    var sorted := SortedNames(p.scripts.Keys);
    names := sorted;
    if |p.scripts| == 0 {
      return "", names;
    }
    var lines := ["[console_scripts]"];
    for i := 0 to |sorted|
      invariant lines == ["[console_scripts]"] + ScriptLines(sorted[..i], p.scripts)
    {
      assert sorted[i] in sorted;
      lines := lines + [sorted[i] + " = " + p.scripts[sorted[i]]];
    }
    assert sorted[..|sorted|] == sorted;
    JoinTerminated(lines);
    text := JoinWith(lines, '\n') + "\n";
  }
}
