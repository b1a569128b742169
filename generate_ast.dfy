/** The syntax-tree source generator. Each node type is described by a line
    "Name : Type field, Type field"; from the descriptions of one base class the generator
    writes the Java source of the abstract base class, its visitor interface and one nested
    class per node type. `AstOutput` and the functions below it describe the lines written;
    the class `AstWriter` writes them one `println` at a time. */
module AstGeneration {
  import opened Wrappers

  const PackageName: string := "luca"

  /** The separator between the fields of a description, and between a field's type and
      its name. */
  const FieldSeparator: string := ", "
  const WordSeparator: string := " "

  /** What the string operations raise: `substring` with the position -1 of a missing ':',
      and index 1 of a field split into fewer than two words. */
  datatype GenError = NoColon(description: string) | NoFieldName(field: string)

  // ---------------------------------------------------------------------------------------
  // String operations of the Java library, as the generator uses them
  // ---------------------------------------------------------------------------------------

  function IndexFrom(s: string, c: char, i: nat): (k: int)
    requires i <= |s|
    ensures k == -1 || i <= k < |s|
    decreases |s| - i
  {
    if i == |s| then -1 else if s[i] == c then i else IndexFrom(s, c, i + 1)
  }

  lemma {:induction false} IndexFromFindsFirst(s: string, c: char, i: nat)
    requires i <= |s|
    ensures var k := IndexFrom(s, c, i);
            (k >= 0 ==> s[k] == c && forall j :: i <= j < k ==> s[j] != c) &&
            (k == -1 ==> forall j :: i <= j < |s| ==> s[j] != c)
    decreases |s| - i
  {
    if i < |s| && s[i] != c {
      IndexFromFindsFirst(s, c, i + 1);
    }
  }

  /** `indexOf(c)`: the first position of `c`, or -1 when `s` has none. */
  function IndexOf(s: string, c: char): (k: int)
    ensures -1 <= k < |s|
  {
    IndexFrom(s, c, 0)
  }

  /** `indexOf` finds the first occurrence, and -1 exactly when there is none. */
  lemma IndexOfFindsFirst(s: string, c: char)
    ensures var k := IndexOf(s, c);
            (k >= 0 ==> s[k] == c && c !in s[..k]) && (k == -1 <==> c !in s)
  {
    IndexFromFindsFirst(s, c, 0);
  }

  /** Characters `trim` removes: those up to and including the space. */
  predicate Blank(c: char)
  {
    c <= ' '
  }

  function SkipBlanks(s: string, i: nat): (k: nat)
    requires i <= |s|
    ensures i <= k <= |s| && (k < |s| ==> !Blank(s[k]))
    decreases |s| - i
  {
    if i < |s| && Blank(s[i]) then SkipBlanks(s, i + 1) else i
  }

  lemma {:induction false} SkippedAreBlank(s: string, i: nat)
    requires i <= |s|
    ensures forall j :: i <= j < SkipBlanks(s, i) ==> Blank(s[j])
    decreases |s| - i
  {
    if i < |s| && Blank(s[i]) {
      SkippedAreBlank(s, i + 1);
    }
  }

  function SkipBlanksBack(s: string, lo: nat, j: nat): (k: nat)
    requires lo <= j <= |s|
    ensures lo <= k <= j && (k > lo ==> !Blank(s[k - 1]))
    decreases j
  {
    if j > lo && Blank(s[j - 1]) then SkipBlanksBack(s, lo, j - 1) else j
  }

  lemma {:induction false} SkippedBackAreBlank(s: string, lo: nat, j: nat)
    requires lo <= j <= |s|
    ensures forall m :: SkipBlanksBack(s, lo, j) <= m < j ==> Blank(s[m])
    decreases j
  {
    if j > lo && Blank(s[j - 1]) {
      SkippedBackAreBlank(s, lo, j - 1);
    }
  }

  /** `trim`: `s` without its leading and trailing blanks. */
  function Trim(s: string): (r: string)
    ensures |r| <= |s|
  {
    var i := SkipBlanks(s, 0);
    s[i..SkipBlanksBack(s, i, |s|)]
  }

  /** What `trim` keeps is one stretch of `s`, starting and ending with a non-blank, and
      everything outside it is blank. */
  lemma TrimStripsBlanks(s: string)
    ensures var i := SkipBlanks(s, 0);
            var r := Trim(s);
            i + |r| <= |s| && r == s[i..i + |r|] &&
            (|r| > 0 ==> !Blank(r[0]) && !Blank(r[|r| - 1])) &&
            (forall j :: 0 <= j < i ==> Blank(s[j])) &&
            (forall j :: i + |r| <= j < |s| ==> Blank(s[j]))
  {
    var i := SkipBlanks(s, 0);
    SkippedAreBlank(s, 0);
    SkippedBackAreBlank(s, i, |s|);
  }

  /** Trimming twice trims no more than trimming once. */
  lemma TrimIdempotent(s: string)
    ensures Trim(Trim(s)) == Trim(s)
  {
    var r := Trim(s);
    var i := SkipBlanks(r, 0);
    assert i == 0;
    var k := SkipBlanksBack(r, 0, |r|);
    assert k == |r|;
    assert r[0..|r|] == r;
  }

  /** `sep` occurs in `s` at position `j`. */
  predicate OccursAt(s: string, sep: string, j: nat)
  {
    j + |sep| <= |s| && forall m :: 0 <= m < |sep| ==> s[j + m] == sep[m]
  }

  /** The first occurrence of `sep` in `s` at or after `i`. */
  function Find(s: string, sep: string, i: nat): (r: Option<nat>)
    requires i <= |s|
    ensures r.Some? ==> i <= r.value && r.value + |sep| <= |s|
    decreases |s| - i
  {
    if OccursAt(s, sep, i) then Some(i)
    else if i == |s| then None
    else Find(s, sep, i + 1)
  }

  /** `Find` gives the first occurrence at or after `i`, and none when there is none. */
  lemma {:induction false} FindIsFirst(s: string, sep: string, i: nat)
    requires i <= |s|
    ensures Find(s, sep, i).Some? ==> OccursAt(s, sep, Find(s, sep, i).value)
    ensures Find(s, sep, i).Some? ==> forall j :: i <= j < Find(s, sep, i).value ==> !OccursAt(s, sep, j)
    ensures Find(s, sep, i).None? ==> forall j :: i <= j <= |s| ==> !OccursAt(s, sep, j)
    decreases |s| - i
  {
    if !OccursAt(s, sep, i) && i < |s| {
      FindIsFirst(s, sep, i + 1);
    }
  }

  /** The first occurrence at or after `i` is at `k` when `sep` occurs at `k` and nowhere
      between. */
  lemma {:induction false} FindAt(s: string, sep: string, i: nat, k: nat)
    requires i <= k && OccursAt(s, sep, k) && forall j :: i <= j < k ==> !OccursAt(s, sep, j)
    ensures Find(s, sep, i) == Some(k)
    decreases k - i
  {
    if i < k {
      FindAt(s, sep, i + 1, k);
    }
  }

  /** There is no occurrence at or after `i` when `sep` occurs nowhere from `i` on. */
  lemma {:induction false} FindNone(s: string, sep: string, i: nat)
    requires i <= |s| && forall j :: i <= j <= |s| ==> !OccursAt(s, sep, j)
    ensures Find(s, sep, i) == None
    decreases |s| - i
  {
    if i < |s| {
      FindNone(s, sep, i + 1);
    }
  }

  /** The pieces of `s` from position `i` on, between the occurrences of `sep`, left to
      right. */
  function PiecesFrom(s: string, sep: string, i: nat): (r: seq<string>)
    requires |sep| > 0 && i <= |s|
    ensures |r| > 0
    decreases |s| - i
  {
    match Find(s, sep, i)
    case None => [s[i..]]
    case Some(k) => [s[i..k]] + PiecesFrom(s, sep, k + |sep|)
  }

  /** The first piece ends at the first occurrence; the rest follow it. */
  lemma PiecesFromAt(s: string, sep: string, i: nat, k: nat)
    requires |sep| > 0 && i <= |s| && Find(s, sep, i) == Some(k)
    ensures PiecesFrom(s, sep, i) == [s[i..k]] + PiecesFrom(s, sep, k + |sep|)
  {
  }

  /** The pieces joined back with `sep` between them. */
  function Join(pieces: seq<string>, sep: string): string
  {
    if |pieces| == 0 then ""
    else if |pieces| == 1 then pieces[0]
    else pieces[0] + sep + Join(pieces[1..], sep)
  }

  /** Splitting loses nothing: joining the pieces with the separator gives the text back. */
  lemma {:induction false} PiecesJoin(s: string, sep: string, i: nat)
    requires |sep| > 0 && i <= |s|
    ensures Join(PiecesFrom(s, sep, i), sep) == s[i..]
    decreases |s| - i
  {
    FindIsFirst(s, sep, i);
    match Find(s, sep, i)
    case None =>
    case Some(k) =>
      var next := k + |sep|;
      PiecesJoin(s, sep, next);
      var pieces := PiecesFrom(s, sep, i);
      assert pieces[0] == s[i..k] && pieces[1..] == PiecesFrom(s, sep, next);
      assert s[k..next] == sep;
      assert s[i..] == s[i..k] + s[k..next] + s[next..];
  }

  /** A text joined from two or more pieces holds the first piece, then the separator, then
      the rest joined. */
  lemma JoinedAt(s: string, sep: string, i: nat, fs: seq<string>)
    requires |sep| > 0 && |fs| > 1 && i <= |s| && s[i..] == Join(fs, sep)
    ensures var k := i + |fs[0]|;
            k + |sep| <= |s| && s[i..k] == fs[0] && OccursAt(s, sep, k) && s[k + |sep|..] == Join(fs[1..], sep)
  {
    var k := i + |fs[0]|;
    assert s[i..] == fs[0] + sep + Join(fs[1..], sep);
    assert s[i..k] == s[i..][..|fs[0]|];
    forall m | 0 <= m < |sep|
      ensures s[k + m] == sep[m]
    {
      assert s[k + m] == s[i..][|fs[0]| + m];
    }
    assert s[k + |sep|..] == s[i..][|fs[0]| + |sep|..];
  }

  /** The characters of a stretch of `s` are those of the piece it equals. */
  lemma StretchAvoids(s: string, i: nat, k: nat, piece: string, c: char)
    requires i <= k <= |s| && s[i..k] == piece && c !in piece
    ensures forall j :: i <= j < k ==> s[j] != c
  {
    forall j | i <= j < k
      ensures s[j] != c
    {
      assert s[j] == s[i..k][j - i];
    }
  }

  /** `sep` occurs nowhere in a stretch without its first character. */
  lemma NoOccurrenceBefore(s: string, sep: string, i: nat, k: nat)
    requires |sep| > 0 && i <= k <= |s| && forall j :: i <= j < k ==> s[j] != sep[0]
    ensures forall j :: i <= j < k ==> !OccursAt(s, sep, j)
  {
    forall j | i <= j < k
      ensures !OccursAt(s, sep, j)
    {
      assert s[j + 0] != sep[0];
    }
  }

  /** A list is its first element followed by the rest. */
  lemma FirstAndRest<T>(xs: seq<T>, first: T, rest: seq<T>, ys: seq<T>)
    requires |xs| > 0 && xs[0] == first && xs[1..] == rest && ys == [first] + rest
    ensures ys == xs
  {
  }

  /** The rest of a text without the separator's first character is the last piece. */
  lemma LastPiece(s: string, sep: string, i: nat, piece: string)
    requires |sep| > 0 && i <= |s| && s[i..] == piece && sep[0] !in piece
    ensures PiecesFrom(s, sep, i) == [piece]
  {
    assert s[i..|s|] == piece;
    StretchAvoids(s, i, |s|, piece, sep[0]);
    NoOccurrenceBefore(s, sep, i, |s|);
    assert !OccursAt(s, sep, |s|);
    FindNone(s, sep, i);
  }

  /** Splitting, from `i` on, a text that continues with pieces joined by `sep` gives those
      pieces back, when no piece holds the separator's first character. */
  lemma {:induction false} JoinPieces(s: string, sep: string, i: nat, fs: seq<string>)
    requires |sep| > 0 && |fs| > 0 && i <= |s| && s[i..] == Join(fs, sep)
    requires forall n :: 0 <= n < |fs| ==> sep[0] !in fs[n]
    ensures PiecesFrom(s, sep, i) == fs
    decreases |fs|
  {
    if |fs| == 1 {
      LastPiece(s, sep, i, fs[0]);
    } else {
      var k := i + |fs[0]|;
      JoinedAt(s, sep, i, fs);
      StretchAvoids(s, i, k, fs[0], sep[0]);
      NoOccurrenceBefore(s, sep, i, k);
      FindAt(s, sep, i, k);
      PiecesFromAt(s, sep, i, k);
      JoinPieces(s, sep, k + |sep|, fs[1..]);
      FirstAndRest(fs, s[i..k], PiecesFrom(s, sep, k + |sep|), PiecesFrom(s, sep, i));
    }
  }

  /** No piece contains the separator. */
  lemma {:induction false} PiecesHaveNoSeparator(s: string, sep: string, i: nat)
    requires |sep| > 0 && i <= |s|
    ensures forall n, j :: 0 <= n < |PiecesFrom(s, sep, i)| && 0 <= j <= |PiecesFrom(s, sep, i)[n]| ==>
              !OccursAt(PiecesFrom(s, sep, i)[n], sep, j)
    decreases |s| - i
  {
    FindIsFirst(s, sep, i);
    var pieces := PiecesFrom(s, sep, i);
    var end := if Find(s, sep, i).Some? then Find(s, sep, i).value else |s|;
    assert pieces[0] == s[i..end];
    forall j | 0 <= j <= |pieces[0]| && OccursAt(pieces[0], sep, j)
      ensures false
    {
      assert OccursAt(s, sep, i + j) by {
        forall m | 0 <= m < |sep|
          ensures s[i + j + m] == sep[m]
        {
          assert s[i..end][j + m] == sep[m];
        }
      }
    }
    if Find(s, sep, i).Some? {
      var next := Find(s, sep, i).value + |sep|;
      PiecesHaveNoSeparator(s, sep, next);
      assert pieces[1..] == PiecesFrom(s, sep, next);
    }
  }

  /** How many of the first `n` pieces are left once the empty ones at the end go. */
  function KeptCount(pieces: seq<string>, n: nat): (k: nat)
    requires n <= |pieces|
    ensures k <= n
  {
    if n > 0 && pieces[n - 1] == "" then KeptCount(pieces, n - 1) else n
  }

  /** Only empty pieces are dropped, and the last piece kept is not empty. */
  lemma {:induction false} KeptCountDropsEmpty(pieces: seq<string>, n: nat)
    requires n <= |pieces|
    ensures var k := KeptCount(pieces, n);
            (k > 0 ==> pieces[k - 1] != "") && forall j :: k <= j < n ==> pieces[j] == ""
  {
    if n > 0 && pieces[n - 1] == "" {
      KeptCountDropsEmpty(pieces, n - 1);
    }
  }

  /** `split` on a separator without regular-expression characters: the input itself when
      the separator does not occur, otherwise the pieces without the trailing empty ones.
      No piece holds the separator, and after a split the last piece is not empty. */
  function JavaSplit(s: string, sep: string): (r: seq<string>)
    requires |sep| > 0
    ensures forall n, j :: 0 <= n < |r| && 0 <= j <= |r[n]| ==> !OccursAt(r[n], sep, j)
    ensures Find(s, sep, 0).Some? && |r| > 0 ==> r[|r| - 1] != ""
  {
    FindIsFirst(s, sep, 0);
    PiecesHaveNoSeparator(s, sep, 0);
    KeptCountDropsEmpty(PiecesFrom(s, sep, 0), |PiecesFrom(s, sep, 0)|);
    if Find(s, sep, 0).None? then [s]
    else
      var pieces := PiecesFrom(s, sep, 0);
      pieces[..KeptCount(pieces, |pieces|)]
  }

  /** Splitting a joined list gives the list back, when no element holds the separator's
      first character and the last one is not empty. */
  lemma SplitOfJoin(fs: seq<string>, sep: string)
    requires |sep| > 0 && |fs| > 0 && fs[|fs| - 1] != ""
    requires forall i :: 0 <= i < |fs| ==> sep[0] !in fs[i]
    ensures JavaSplit(Join(fs, sep), sep) == fs
  {
    var s := Join(fs, sep);
    JoinPieces(s, sep, 0, fs);
    assert s[0..] == s;
  }

  /** `toLowerCase` on ASCII letters. */
  function LowerCase(s: string): (r: string)
    ensures |r| == |s|
  {
    if |s| == 0 then ""
    else [if 'A' <= s[0] <= 'Z' then (s[0] as int + 32) as char else s[0]] + LowerCase(s[1..])
  }

  /** Lower-casing maps each ASCII capital to its small letter and keeps everything else. */
  lemma {:induction false} LowerCaseMapsLetters(s: string)
    ensures forall i :: 0 <= i < |s| ==>
              LowerCase(s)[i] == if 'A' <= s[i] <= 'Z' then (s[i] as int + 32) as char else s[i]
  {
    if |s| > 0 {
      LowerCaseMapsLetters(s[1..]);
      assert forall i :: 0 < i < |s| ==> LowerCase(s)[i] == LowerCase(s[1..])[i - 1];
    }
  }

  // ---------------------------------------------------------------------------------------
  // The text extracted from a description
  // ---------------------------------------------------------------------------------------

  /** The class name of a description: the trimmed text before its first ':'; there is one
      exactly when the description holds a ':'. */
  function ClassName(t: string): (r: Result<string, GenError>)
    ensures r.Ok? <==> ':' in t
    ensures r.Err? ==> r.error == NoColon(t)
  {
    IndexOfFindsFirst(t, ':');
    var sep := IndexOf(t, ':');
    if sep < 0 then Err(NoColon(t)) else Ok(Trim(t[..sep]))
  }

  /** The field list of a description: the trimmed text after its first ':'; there is one
      exactly when the description holds a ':'. */
  function FieldList(t: string): (r: Result<string, GenError>)
    ensures r.Ok? <==> ':' in t
    ensures r.Err? ==> r.error == NoColon(t)
  {
    IndexOfFindsFirst(t, ':');
    var sep := IndexOf(t, ':');
    if sep < 0 then Err(NoColon(t)) else Ok(Trim(t[sep + 1..]))
  }

  /** A description splits at its first ':' into the class name before it and the field
      list after it; without a ':' both fail. */
  lemma DescriptionSplitsAtFirstColon(t: string)
    ensures ':' !in t ==> ClassName(t) == Err(NoColon(t)) && FieldList(t) == Err(NoColon(t))
    ensures var k := IndexOf(t, ':');
            ':' in t ==> (0 <= k && t[k] == ':' && ':' !in t[..k] &&
                          ClassName(t) == Ok(Trim(t[..k])) && FieldList(t) == Ok(Trim(t[k + 1..])))
  {
    IndexOfFindsFirst(t, ':');
  }

  /** A word in which the one-space separator never occurs holds no space. */
  lemma NoSeparatorNoSpace(w: string)
    requires forall j :: 0 <= j <= |w| ==> !OccursAt(w, WordSeparator, j)
    ensures ' ' !in w
  {
    forall j | 0 <= j < |w|
      ensures w[j] != ' '
    {
      assert !OccursAt(w, WordSeparator, j);
    }
  }

  /** The name of a field "Type name": its second space-separated word, which holds no
      space. */
  function FieldName(field: string): (r: Result<string, GenError>)
    ensures r.Ok? ==> ' ' !in r.value
    ensures r.Err? ==> r.error == NoFieldName(field)
  {
    var words := JavaSplit(field, WordSeparator);
    if |words| >= 2 then
      NoSeparatorNoSpace(words[1]);
      Ok(words[1])
    else Err(NoFieldName(field))
  }

  /** A field written as a type and a name, neither with a space, yields that name. */
  lemma FieldNameOfTypedField(typeName: string, name: string)
    requires typeName != "" && name != "" && ' ' !in typeName && ' ' !in name
    ensures FieldName(typeName + " " + name) == Ok(name)
  {
    var fs := [typeName, name];
    assert Join(fs, WordSeparator) == typeName + " " + name by {
      assert Join(fs[1..], WordSeparator) == name;
    }
    SplitOfJoin(fs, WordSeparator);
  }

  /** A field without a space has no name. */
  lemma FieldWithoutSpaceFails(field: string)
    requires ' ' !in field
    ensures FieldName(field) == Err(NoFieldName(field))
  {
    forall j | 0 <= j < |field|
      ensures field[j] != WordSeparator[0]
    {
    }
    NoOccurrenceBefore(field, WordSeparator, 0, |field|);
    FindIsFirst(field, WordSeparator, 0);
  }

  /** `f` applied to each element in order: every result, or the error of the first element
      it fails on. Both loops of the generator that name things (the class names of the
      visitor, the field names of a constructor) have this shape. */
  function MapAll<A, B>(f: A -> Result<B, GenError>, xs: seq<A>): (r: Result<seq<B>, GenError>)
    ensures r.Ok? ==> |r.value| == |xs|
  {
    if |xs| == 0 then Ok([])
    else match MapAll(f, xs[..|xs| - 1])
      case Err(e) => Err(e)
      case Ok(ys) =>
        match f(xs[|xs| - 1])
        case Err(e) => Err(e)
        case Ok(y) => Ok(ys + [y])
  }

  /** One more element mapped after a successful prefix. */
  lemma MapAllStep<A, B>(f: A -> Result<B, GenError>, xs: seq<A>, i: nat)
    requires i < |xs| && MapAll(f, xs[..i]).Ok? && f(xs[i]).Ok?
    ensures MapAll(f, xs[..i + 1]) == Ok(MapAll(f, xs[..i]).value + [f(xs[i]).value])
  {
    assert xs[..i + 1][..i] == xs[..i];
  }

  /** `MapAll` succeeds exactly when `f` succeeds on every element, with one result per
      element in order. */
  lemma {:induction false} MapAllOfEach<A, B>(f: A -> Result<B, GenError>, xs: seq<A>)
    ensures MapAll(f, xs).Ok? <==> forall i :: 0 <= i < |xs| ==> f(xs[i]).Ok?
    ensures MapAll(f, xs).Ok? ==>
              (|MapAll(f, xs).value| == |xs| &&
               forall i :: 0 <= i < |xs| ==> f(xs[i]) == Ok(MapAll(f, xs).value[i]))
    decreases |xs|
  {
    if |xs| > 0 {
      var init := xs[..|xs| - 1];
      MapAllOfEach(f, init);
      assert forall i :: 0 <= i < |init| ==> init[i] == xs[i];
    }
  }

  /** Once `f` fails on an element after a successful prefix, `MapAll` reports that failure. */
  lemma {:induction false} MapAllFailAt<A, B>(f: A -> Result<B, GenError>, xs: seq<A>, i: nat)
    requires i < |xs| && MapAll(f, xs[..i]).Ok? && f(xs[i]).Err?
    ensures MapAll(f, xs) == Err(f(xs[i]).error)
    decreases |xs|
  {
    if |xs| > i + 1 {
      var init := xs[..|xs| - 1];
      assert init[..i] == xs[..i];
      MapAllFailAt(f, init, i);
    } else {
      assert xs[..|xs| - 1] == xs[..i];
    }
  }

  /** A failing `MapAll` fails at the first element `f` fails on. */
  lemma {:induction false} MapAllFirstError<A, B>(f: A -> Result<B, GenError>, xs: seq<A>)
    requires MapAll(f, xs).Err?
    ensures exists i :: 0 <= i < |xs| && MapAll(f, xs[..i]).Ok? && f(xs[i]).Err? &&
                        MapAll(f, xs).error == f(xs[i]).error
    decreases |xs|
  {
    var init := xs[..|xs| - 1];
    if MapAll(f, init).Err? {
      MapAllFirstError(f, init);
      var i :| 0 <= i < |init| && MapAll(f, init[..i]).Ok? && f(init[i]).Err? &&
               MapAll(f, init).error == f(init[i]).error;
      assert init[..i] == xs[..i];
    }
  }

  /** The class names of the descriptions, one per description exactly when each has a ':';
      otherwise the first description without one. */
  function ClassNames(types: seq<string>): (r: Result<seq<string>, GenError>)
    ensures r.Ok? <==> forall i :: 0 <= i < |types| ==> ':' in types[i]
    ensures r.Ok? ==> |r.value| == |types|
  {
    MapAllOfEach(ClassName, types);
    MapAll(ClassName, types)
  }

  /** The field names, one single word per field, or the first field without a second word. */
  function FieldNames(fields: seq<string>): (r: Result<seq<string>, GenError>)
    ensures r.Ok? ==> |r.value| == |fields| && forall i :: 0 <= i < |fields| ==> ' ' !in r.value[i]
  {
    MapAllOfEach(FieldName, fields);
    MapAll(FieldName, fields)
  }

  // ---------------------------------------------------------------------------------------
  // The lines written
  // ---------------------------------------------------------------------------------------

  function VisitLine(baseName: string, typeName: string): string
  {
    "    R visit" + typeName + baseName + "(" + typeName + " " + LowerCase(baseName) + ");"
  }

  /** One visit method per type name, in order. */
  function VisitLines(baseName: string, names: seq<string>): (r: seq<string>)
    ensures |r| == |names| && forall i :: 0 <= i < |names| ==> r[i] == VisitLine(baseName, names[i])
  {
    if |names| == 0 then [] else VisitLines(baseName, names[..|names| - 1]) + [VisitLine(baseName, names[|names| - 1])]
  }

  function AssignLine(name: string): string
  {
    "      this." + name + " = " + name + ";"
  }

  /** One constructor assignment per field name, in order. */
  function AssignLines(names: seq<string>): (r: seq<string>)
    ensures |r| == |names| && forall i :: 0 <= i < |names| ==> r[i] == AssignLine(names[i])
  {
    if |names| == 0 then [] else AssignLines(names[..|names| - 1]) + [AssignLine(names[|names| - 1])]
  }

  function FinalLine(field: string): string
  {
    "    final " + field + ";"
  }

  /** One field declaration per field, in order. */
  function FinalLines(fields: seq<string>): (r: seq<string>)
    ensures |r| == |fields| && forall i :: 0 <= i < |fields| ==> r[i] == FinalLine(fields[i])
  {
    if |fields| == 0 then [] else FinalLines(fields[..|fields| - 1]) + [FinalLine(fields[|fields| - 1])]
  }

  const VisitorOpen: string := "  interface Visitor<R> {"
  const VisitorClose: string := "  }"

  /** What `defineVisitor` writes for the class names of the descriptions. */
  function VisitorLines(baseName: string, names: seq<string>): (r: seq<string>)
    ensures |r| == |names| + 2 && r[0] == VisitorOpen && r[|r| - 1] == VisitorClose
  {
    [VisitorOpen] + VisitLines(baseName, names) + [VisitorClose]
  }


  // ---------------------------------------------------------------------------------------
  // Parsed descriptions
  // ---------------------------------------------------------------------------------------

  /** What the generator computes from one description: the class name and field list, the
      fields split out of the list, and the name of each field. */
  datatype TypeSpec = TypeSpec(className: string, fieldList: string, fields: seq<string>, names: seq<string>)

  /** A description parsed: the text around its first ':', then the name of each field of
      the list after it; or why it cannot be written. A description without ':' fails with
      that, and a parsed one has one name per field, each a single word. */
  function ParseDescription(t: string): (r: Result<TypeSpec, GenError>)
    ensures ':' !in t ==> r == Err(NoColon(t))
    ensures r.Ok? ==> ':' in t && |r.value.names| == |r.value.fields|
    ensures r.Ok? ==> forall i :: 0 <= i < |r.value.names| ==> ' ' !in r.value.names[i]
  {
    IndexOfFindsFirst(t, ':');
    var k := IndexOf(t, ':');
    if k < 0 then Err(NoColon(t))
    else
      var fieldList := Trim(t[k + 1..]);
      var fields := JavaSplit(fieldList, FieldSeparator);
      MapAllOfEach(FieldName, fields);
      match FieldNames(fields)
      case Err(e) => Err(e)
      case Ok(names) => Ok(TypeSpec(Trim(t[..k]), fieldList, fields, names))
  }

  /** A description parses exactly when it has a ':' and every field after it has a name;
      then its class name and field list are the text around its first ':', with one name
      per field, each the field's second word. */
  lemma ParseNamesEachField(t: string)
    ensures ParseDescription(t).Ok? <==>
              (FieldList(t).Ok? &&
               var fields := JavaSplit(FieldList(t).value, FieldSeparator);
               forall i :: 0 <= i < |fields| ==> FieldName(fields[i]).Ok?)
    ensures ParseDescription(t).Ok? ==>
              (ClassName(t).Ok? && FieldList(t).Ok? &&
               var spec := ParseDescription(t).value;
               spec.className == ClassName(t).value && spec.fieldList == FieldList(t).value &&
               spec.fields == JavaSplit(spec.fieldList, FieldSeparator) && |spec.names| == |spec.fields| &&
               forall i :: 0 <= i < |spec.fields| ==> FieldName(spec.fields[i]) == Ok(spec.names[i]))
  {
    var k := IndexOf(t, ':');
    if k >= 0 {
      var fields := JavaSplit(Trim(t[k + 1..]), FieldSeparator);
      assert FieldList(t) == Ok(Trim(t[k + 1..])) && ClassName(t) == Ok(Trim(t[..k]));
      MapAllOfEach(FieldName, fields);
    }
  }

  /** A description that does not parse reports its missing ':' or the first field without
      a name. */
  lemma ParseErrorCases(t: string)
    requires ParseDescription(t).Err?
    ensures ':' !in t ==> ParseDescription(t) == Err(NoColon(t))
    ensures ':' in t ==>
              (FieldList(t).Ok? &&
               var fields := JavaSplit(FieldList(t).value, FieldSeparator);
               exists i :: 0 <= i < |fields| && FieldNames(fields[..i]).Ok? &&
                           ParseDescription(t) == Err(NoFieldName(fields[i])))
  {
    IndexOfFindsFirst(t, ':');
    var k := IndexOf(t, ':');
    if k >= 0 {
      var fields := JavaSplit(Trim(t[k + 1..]), FieldSeparator);
      assert FieldList(t) == Ok(Trim(t[k + 1..]));
      MapAllFirstError(FieldName, fields);
    }
  }

  // ---------------------------------------------------------------------------------------
  // The lines of the nested classes and of the file
  // ---------------------------------------------------------------------------------------

  function AcceptLine(className: string, baseName: string): string
  {
    "      return visitor.visit" + className + baseName + "(this);"
  }

  function TypeHeader(baseName: string, className: string, fieldList: string): seq<string>
  {
    ["  static class " + className + " extends " + baseName + " {",
     "    " + className + "(" + fieldList + ") {"]
  }

  function AcceptMethod(baseName: string, className: string): seq<string>
  {
    ["    }", "", "    @Override", "    <R> R accept(Visitor<R> visitor) {",
     AcceptLine(className, baseName), "    }", ""]
  }

  /** What `defineType` writes for a parsed description: ten fixed lines, one per field
      name and one per field, opening with the class header and closing its brace. */
  function TypeBlock(baseName: string, spec: TypeSpec): (r: seq<string>)
    ensures |r| == |spec.names| + |spec.fields| + 10
    ensures r[0] == "  static class " + spec.className + " extends " + baseName + " {"
    ensures r[|r| - 1] == "  }"
  {
    TypeHeader(baseName, spec.className, spec.fieldList) + AssignLines(spec.names) +
    AcceptMethod(baseName, spec.className) + FinalLines(spec.fields) + ["  }"]
  }

  /** What the loop of `defineAst` writes: the nested class of each parsed description, in
      order. */
  function TypeBlocks(baseName: string, specs: seq<TypeSpec>): (r: seq<string>)
    ensures |r| >= 10 * |specs|
    ensures |specs| > 0 ==> r[|r| - 1] == "  }"
  {
    if |specs| == 0 then [] else TypeBlocks(baseName, specs[..|specs| - 1]) + TypeBlock(baseName, specs[|specs| - 1])
  }

  function Preamble(baseName: string): seq<string>
  {
    ["package " + PackageName + ";", "", "import java.util.List;", "", "abstract class " + baseName + " {"]
  }

  const Postamble: seq<string> := ["", "  abstract <R> R accept(Visitor<R> visitor);", "}"]

  /** What `defineAst` writes for one base class: every description is checked for its ':'
      by the visitor before any class is written, so a missing ':' is reported before a
      missing field name. The file is written exactly when every description parses. */
  function AstOutput(baseName: string, types: seq<string>): (r: Result<seq<string>, GenError>)
    ensures r.Ok? <==> forall i :: 0 <= i < |types| ==> ParseDescription(types[i]).Ok?
  {
    MapAllOfEach(ClassName, types);
    MapAllOfEach(ParseDescription, types);
    match ClassNames(types)
    case Err(e) => Err(e)
    case Ok(names) =>
      match MapAll(ParseDescription, types)
      case Err(e) => Err(e)
      case Ok(specs) => Ok(Preamble(baseName) + VisitorLines(baseName, names) + TypeBlocks(baseName, specs) + Postamble)
  }

  lemma TypeBlocksSnoc(baseName: string, specs: seq<TypeSpec>, spec: TypeSpec)
    ensures TypeBlocks(baseName, specs + [spec]) == TypeBlocks(baseName, specs) + TypeBlock(baseName, spec)
  {
    assert (specs + [spec])[..|specs|] == specs;
  }

  // ---------------------------------------------------------------------------------------
  // Properties of the output
  // ---------------------------------------------------------------------------------------

  /** The visitor interface has exactly one visit method per description, in order. */
  lemma VisitorHasOneLinePerType(baseName: string, types: seq<string>)
    requires ClassNames(types).Ok?
    ensures var v := VisitorLines(baseName, ClassNames(types).value);
            |v| == |types| + 2 && v[0] == VisitorOpen && v[|v| - 1] == VisitorClose &&
            forall i :: 0 <= i < |types| ==> ClassName(types[i]).Ok? && v[i + 1] == VisitLine(baseName, ClassName(types[i]).value)
  {
    MapAllOfEach(ClassName, types);
  }

  /** The nested class of a description with one name per field: the class header, the
      constructor assigning each field's name to itself in field order, the `accept`
      method calling the visit method named after the class, each field declared as
      written in field order, and the closing brace. */
  lemma TypeBlockLayout(baseName: string, spec: TypeSpec)
    requires |spec.names| == |spec.fields|
    ensures var b := TypeBlock(baseName, spec);
            var n := |spec.fields|;
            |b| == 2 * n + 10 &&
            b[0] == "  static class " + spec.className + " extends " + baseName + " {" &&
            b[1] == "    " + spec.className + "(" + spec.fieldList + ") {" &&
            (forall i :: 0 <= i < n ==> b[2 + i] == AssignLine(spec.names[i])) &&
            b[n + 6] == AcceptLine(spec.className, baseName) &&
            (forall i :: 0 <= i < n ==> b[n + 9 + i] == FinalLine(spec.fields[i])) &&
            b[2 * n + 9] == "  }"
  {
    var h := TypeHeader(baseName, spec.className, spec.fieldList);
    var a := AssignLines(spec.names);
    var m := AcceptMethod(baseName, spec.className);
    var f := FinalLines(spec.fields);
    var b := TypeBlock(baseName, spec);
    assert b == h + a + m + f + ["  }"];
    var n := |spec.fields|;
    forall i | 0 <= i < n
      ensures b[2 + i] == a[i]
    {
      assert b[2 + i] == (h + a)[2 + i];
    }
    assert b[n + 6] == m[4] by {
      assert b[n + 6] == (h + a + m)[n + 6];
    }
    forall i | 0 <= i < n
      ensures b[n + 9 + i] == f[i]
    {
      assert b[n + 9 + i] == (h + a + m + f)[n + 9 + i];
    }
  }

  /** The constructor of a writable description assigns the second word of each field. */
  lemma ConstructorAssignsFieldNames(baseName: string, t: string)
    requires ParseDescription(t).Ok?
    ensures var fields := ParseDescription(t).value.fields;
            var b := TypeBlock(baseName, ParseDescription(t).value);
            |b| == 2 * |fields| + 10 &&
            forall i :: 0 <= i < |fields| ==> FieldName(fields[i]).Ok? && b[2 + i] == AssignLine(FieldName(fields[i]).value)
  {
    ParseNamesEachField(t);
    TypeBlockLayout(baseName, ParseDescription(t).value);
  }

  /** The file starts with the package line and ends with the base class's closing brace. */
  lemma OutputFraming(baseName: string, types: seq<string>)
    requires AstOutput(baseName, types).Ok?
    ensures var out := AstOutput(baseName, types).value;
            |out| >= 10 && out[0] == "package luca;" && out[4] == "abstract class " + baseName + " {" &&
            out[|out| - 1] == "}"
  {
    var out := AstOutput(baseName, types).value;
    var v := VisitorLines(baseName, ClassNames(types).value);
    var p := Preamble(baseName);
    var rest := TypeBlocks(baseName, MapAll(ParseDescription, types).value);
    assert out == p + v + rest + Postamble;
    assert |v| >= 2;
    assert out[0] == p[0] && out[4] == p[4];
  }

  /** A description without ':' makes the whole generation fail with that description. */
  lemma MissingColonFails(baseName: string, types: seq<string>, i: nat)
    requires i < |types| && ':' !in types[i]
    requires forall j :: 0 <= j < i ==> ':' in types[j]
    ensures AstOutput(baseName, types) == Err(NoColon(types[i]))
  {
    MapAllOfEach(ClassName, types[..i]);
    forall j | 0 <= j < i
      ensures ClassName(types[..i][j]).Ok?
    {
      IndexOfFindsFirst(types[j], ':');
    }
    IndexOfFindsFirst(types[i], ':');
    MapAllFailAt(ClassName, types, i);
  }

  /** Generation succeeds exactly when every description has its ':' and parses; the
      output then holds the nested class of each description, in order. */
  lemma OutputHasEveryClass(baseName: string, types: seq<string>)
    ensures AstOutput(baseName, types).Ok? <==>
              forall i :: 0 <= i < |types| ==> ClassName(types[i]).Ok? && ParseDescription(types[i]).Ok?
    ensures AstOutput(baseName, types).Ok? ==>
              (|MapAll(ParseDescription, types).value| == |types| &&
               forall i :: 0 <= i < |types| ==>
                 ParseDescription(types[i]) == Ok(MapAll(ParseDescription, types).value[i]))
  {
    MapAllOfEach(ClassName, types);
    MapAllOfEach(ParseDescription, types);
  }

  /** With every ':' present, generation fails with the error of the first description that
      does not parse. */
  lemma FirstUnwritableFails(baseName: string, types: seq<string>, i: nat)
    requires ClassNames(types).Ok? && i < |types| && ParseDescription(types[i]).Err?
    requires forall j :: 0 <= j < i ==> ParseDescription(types[j]).Ok?
    ensures AstOutput(baseName, types) == Err(ParseDescription(types[i]).error)
  {
    MapAllOfEach(ParseDescription, types[..i]);
    assert forall j :: 0 <= j < i ==> types[..i][j] == types[j];
    MapAllFailAt(ParseDescription, types, i);
  }

  // ---------------------------------------------------------------------------------------
  // The writer
  // ---------------------------------------------------------------------------------------

  /** The generator writing to its output: `lines` holds every line printed so far. */
  class AstWriter {
    var lines: seq<string>

    constructor()
      ensures lines == []
    {
      lines := [];
    }

    method Println(line: string)
      modifies this
      ensures lines == old(lines) + [line]
    {
      lines := lines + [line];
    }

    method DefineAst(baseName: string, types: seq<string>) returns (r: Result<(), GenError>)
      modifies this
      ensures AstOutput(baseName, types).Ok? ==> r.Ok? && lines == old(lines) + AstOutput(baseName, types).value
      ensures AstOutput(baseName, types).Err? ==> r == Err(AstOutput(baseName, types).error)
    {
      DefinePreamble(baseName);
      var visitor := DefineVisitor(baseName, types);
      if visitor.Err? {
        return visitor;
      }
      ghost var head := Preamble(baseName) + VisitorLines(baseName, ClassNames(types).value);
      AppendAssoc(old(lines), Preamble(baseName), VisitorLines(baseName, ClassNames(types).value));
      var written := DefineTypes(baseName, types);
      if written.Err? {
        return written;
      }
      ghost var body := head + TypeBlocks(baseName, MapAll(ParseDescription, types).value);
      AppendAssoc(old(lines), head, TypeBlocks(baseName, MapAll(ParseDescription, types).value));
      DefinePostamble();
      AppendAssoc(old(lines), body, Postamble);
      r := Ok(());
    }

    /** The package line, the import and the opening of the base class. */
    method DefinePreamble(baseName: string)
      modifies this
      ensures lines == old(lines) + Preamble(baseName)
    {
      Println("package " + PackageName + ";");
      Println("");
      Println("import java.util.List;");
      Println("");
      Println("abstract class " + baseName + " {");
    }

    /** The base class's abstract `accept` method and its closing brace. */
    method DefinePostamble()
      modifies this
      ensures lines == old(lines) + Postamble
    {
      Println("");
      Println("  abstract <R> R accept(Visitor<R> visitor);");
      Println("}");
    }

    method DefineVisitor(baseName: string, types: seq<string>) returns (r: Result<(), GenError>)
      modifies this
      ensures ClassNames(types).Ok? ==> r.Ok? && lines == old(lines) + VisitorLines(baseName, ClassNames(types).value)
      ensures ClassNames(types).Err? ==> r == Err(ClassNames(types).error)
    {
      Println(VisitorOpen);
      ghost var afterOpen := lines;
      for i := 0 to |types|
        invariant ClassNames(types[..i]).Ok?
        invariant lines == afterOpen + VisitLines(baseName, ClassNames(types[..i]).value)
      {
        assert types[..i + 1][..i] == types[..i];
        var sep := IndexOf(types[i], ':');
        if sep < 0 {
          MapAllFailAt(ClassName, types, i);
          return Err(NoColon(types[i]));
        }
        var typeName := Trim(types[i][..sep]);
        ghost var written := VisitLines(baseName, ClassNames(types[..i]).value);
        Println("    R visit" + typeName + baseName + "(" + typeName + " " + LowerCase(baseName) + ");");
        AppendAssoc(afterOpen, written, [VisitLine(baseName, typeName)]);
      }
      assert types[..|types|] == types;
      ghost var visits := VisitLines(baseName, ClassNames(types).value);
      Println(VisitorClose);
      AppendAssoc(old(lines), [VisitorOpen], visits);
      AppendAssoc(old(lines), [VisitorOpen] + visits, [VisitorClose]);
      r := Ok(());
    }

    /** The loop of `defineAst` over the descriptions. */
    method DefineTypes(baseName: string, types: seq<string>) returns (r: Result<(), GenError>)
      modifies this
      ensures MapAll(ParseDescription, types).Ok? ==>
                r.Ok? && lines == old(lines) + TypeBlocks(baseName, MapAll(ParseDescription, types).value)
      ensures MapAll(ParseDescription, types).Err? ==> r == Err(MapAll(ParseDescription, types).error)
    {
      ghost var done: seq<TypeSpec> := [];
      for i := 0 to |types|
        invariant MapAll(ParseDescription, types[..i]) == Ok(done)
        invariant lines == old(lines) + TypeBlocks(baseName, done)
      {
        var written := DefineDescription(baseName, types[i]);
        if written.Err? {
          MapAllFailAt(ParseDescription, types, i);
          return written;
        }
        ghost var spec := ParseDescription(types[i]).value;
        MapAllStep(ParseDescription, types, i);
        TypeBlocksSnoc(baseName, done, spec);
        AppendAssoc(old(lines), TypeBlocks(baseName, done), TypeBlock(baseName, spec));
        done := done + [spec];
      }
      assert types[..|types|] == types;
      r := Ok(());
    }

    /** One pass of that loop: the description split at its first ':', then its class. */
    method DefineDescription(baseName: string, t: string) returns (r: Result<(), GenError>)
      modifies this
      ensures ParseDescription(t).Ok? ==> r.Ok? && lines == old(lines) + TypeBlock(baseName, ParseDescription(t).value)
      ensures ParseDescription(t).Err? ==> r == Err(ParseDescription(t).error)
    {
      var sep := IndexOf(t, ':');
      if sep < 0 {
        return Err(NoColon(t));
      }
      var className := Trim(t[..sep]);
      var fieldList := Trim(t[sep + 1..]);
      ghost var fields := JavaSplit(fieldList, FieldSeparator);
      assert ParseDescription(t) ==
               if FieldNames(fields).Ok? then Ok(TypeSpec(className, fieldList, fields, FieldNames(fields).value))
               else Err(FieldNames(fields).error);
      r := DefineType(baseName, className, fieldList);
    }

    /** The nested class of one description, from its class name and field list. */
    method DefineType(baseName: string, className: string, fieldList: string) returns (r: Result<(), GenError>)
      modifies this
      ensures var fields := JavaSplit(fieldList, FieldSeparator);
              FieldNames(fields).Ok? ==>
                r.Ok? && lines == old(lines) + TypeBlock(baseName, TypeSpec(className, fieldList, fields, FieldNames(fields).value))
      ensures var fields := JavaSplit(fieldList, FieldSeparator);
              FieldNames(fields).Err? ==> r == Err(FieldNames(fields).error)
    {
      Println("  static class " + className + " extends " + baseName + " {");
      Println("    " + className + "(" + fieldList + ") {");
      ghost var header := TypeHeader(baseName, className, fieldList);
      assert lines == old(lines) + header;
      var fields := JavaSplit(fieldList, FieldSeparator);
      var constructed := DefineFields(fields);
      if constructed.Err? {
        return constructed;
      }
      ghost var withAssigns := header + AssignLines(FieldNames(fields).value);
      AppendAssoc(old(lines), header, AssignLines(FieldNames(fields).value));
      DefineAccept(baseName, className);
      ghost var withAccept := withAssigns + AcceptMethod(baseName, className);
      AppendAssoc(old(lines), withAssigns, AcceptMethod(baseName, className));
      DeclareFields(fields);
      ghost var withFinals := withAccept + FinalLines(fields);
      AppendAssoc(old(lines), withAccept, FinalLines(fields));
      Println("  }");
      AppendAssoc(old(lines), withFinals, ["  }"]);
      r := Ok(());
    }

    /** The end of the constructor and the `accept` method. */
    method DefineAccept(baseName: string, className: string)
      modifies this
      ensures lines == old(lines) + AcceptMethod(baseName, className)
    {
      Println("    }");
      Println("");
      Println("    @Override");
      Println("    <R> R accept(Visitor<R> visitor) {");
      Println("      return visitor.visit" + className + baseName + "(this);");
      Println("    }");
      Println("");
    }

    /** The constructor's body: one assignment per field, in order. */
    method DefineFields(fields: seq<string>) returns (r: Result<(), GenError>)
      modifies this
      ensures FieldNames(fields).Ok? ==> r.Ok? && lines == old(lines) + AssignLines(FieldNames(fields).value)
      ensures FieldNames(fields).Err? ==> r == Err(FieldNames(fields).error)
    {
      for i := 0 to |fields|
        invariant FieldNames(fields[..i]).Ok?
        invariant lines == old(lines) + AssignLines(FieldNames(fields[..i]).value)
      {
        assert fields[..i + 1][..i] == fields[..i];
        var name := FieldName(fields[i]);
        if name.Err? {
          MapAllFailAt(FieldName, fields, i);
          return Err(name.error);
        }
        Println("      this." + name.value + " = " + name.value + ";");
      }
      assert fields[..|fields|] == fields;
      r := Ok(());
    }

    /** The field declarations: one per field, in order. */
    method DeclareFields(fields: seq<string>)
      modifies this
      ensures lines == old(lines) + FinalLines(fields)
    {
      for i := 0 to |fields|
        invariant lines == old(lines) + FinalLines(fields[..i])
      {
        assert fields[..i + 1][..i] == fields[..i];
        Println("    final " + fields[i] + ";");
      }
      assert fields[..|fields|] == fields;
    }
  }
}
