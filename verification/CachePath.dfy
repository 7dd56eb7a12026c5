/** Where cached files are: names joined to the cache directory and cleaned, as filepath.Join does. */
module CachePath {
  import opened Disk

  /** The pieces of a path between slashes, empty ones included. */
  function Split(s: string): (r: seq<string>)
    ensures r != []
  {
    SplitFrom(s, 0, [])
  }

  /** The same from position i on, when `piece` has been read of the current one. */
  function SplitFrom(s: string, i: nat, piece: string): (r: seq<string>)
    requires i <= |s|
    ensures r != []
    decreases |s| - i
  {
    if i == |s| then [piece]
    else if s[i] == '/' then [piece] + SplitFrom(s, i + 1, [])
    else SplitFrom(s, i + 1, piece + [s[i]])
  }

  const HERE := "."
  const UP := ".."

  /** One piece further: nothing and a dot stay, two dots go up. The root has nothing above it, and above the start of
      a relative path there are only more dots. */
  function Enter(rooted: bool, dir: seq<string>, piece: string): (r: seq<string>) {
    if piece == [] || piece == HERE then dir
    else if piece == UP && dir != [] && dir[|dir| - 1] != UP then dir[..|dir| - 1]
    else if piece == UP && rooted then dir
    else dir + [piece]
  }

  function Resolve(rooted: bool, dir: seq<string>, pieces: seq<string>): (r: seq<string>)
    decreases pieces
  {
    if pieces == [] then dir else Resolve(rooted, Enter(rooted, dir, pieces[0]), pieces[1..])
  }

  predicate Rooted(path: string) {
    path != [] && path[0] == '/'
  }

  /** filepath.Clean, with the pieces of the result for the result. */
  function Clean(path: string): (p: Path) {
    Formal(Rooted(path), Resolve(Rooted(path), [], Split(path)))
  }

  /** filepath.Join of two elements: empty ones are left out. */
  function Join(directory: string, file: string): (p: Path)
    ensures p.Formal?
  {
    Clean(if directory == [] then file else if file == [] then directory else directory + ['/'] + file)
  }

  /** The pieces of a directory. */
  function Pieces(directory: string): (r: seq<string>) {
    Resolve(Rooted(directory), [], Split(directory))
  }

  const PREFIX := "template_"
  const SUFFIX := ".json"

  /** The cached file of a template. */
  function TemplateFile(name: string): (file: string) {
    PREFIX + name + SUFFIX
  }

  // ---------- what cleaning leaves ----------

  /** No empty piece, no dot, and two dots only at the start of a relative path. */
  predicate Normal(rooted: bool, dir: seq<string>) {
    forall i :: 0 <= i < |dir| ==> dir[i] != [] && dir[i] != HERE && (dir[i] == UP ==> !rooted && (i > 0 ==> dir[i - 1] == UP))
  }

  lemma EnterStaysNormal(rooted: bool, dir: seq<string>, piece: string)
    requires Normal(rooted, dir)
    ensures Normal(rooted, Enter(rooted, dir, piece))
  {
    assert forall i :: 0 <= i < |dir| ==> (dir + [piece])[i] == dir[i];
  }

  lemma {:induction false} ResolveIsNormal(rooted: bool, dir: seq<string>, pieces: seq<string>)
    requires Normal(rooted, dir)
    ensures Normal(rooted, Resolve(rooted, dir, pieces))
    decreases pieces
  {
    hide Normal, Enter;
    if pieces != [] {
      EnterStaysNormal(rooted, dir, pieces[0]);
      ResolveIsNormal(rooted, Enter(rooted, dir, pieces[0]), pieces[1..]);
    }
  }

  lemma {:induction false} NormalIsKept(rooted: bool, dir: seq<string>, n: nat)
    requires Normal(rooted, dir) && n <= |dir|
    ensures Resolve(rooted, dir[..n], dir[n..]) == dir
    decreases |dir| - n
  {
    if n == |dir| {
      assert dir[..n] == dir && dir[n..] == [];
    } else {
      assert n > 0 ==> dir[..n][n - 1] == dir[n - 1];
      assert dir[..n] + [dir[n]] == dir[..n + 1];
      assert dir[n] != [] && dir[n] != HERE;
      assert Enter(rooted, dir[..n], dir[n]) == dir[..n + 1];
      NormalIsKept(rooted, dir, n + 1);
    }
  }

  /** A cleaned path has no detour left in it, and cleaning it again changes nothing. */
  lemma CleanIsNormal(path: string)
    ensures var p := Clean(path); Normal(p.rooted, p.parts) && Resolve(p.rooted, [], p.parts) == p.parts
  {
    var p := Clean(path);
    ResolveIsNormal(Rooted(path), [], Split(path));
    NormalIsKept(p.rooted, p.parts, 0);
    assert p.parts[..0] == [] && p.parts[0..] == p.parts;
  }

  // ---------- joining goes on from the directory ----------

  /** Reading up to a slash, with what comes behind it read on its own. */
  lemma {:induction false} SplitAtSlash(s: string, t: string, i: nat, piece: string)
    requires i <= |s|
    ensures SplitFrom(s + ['/'] + t, i, piece) == SplitFrom(s, i, piece) + Split(t)
    decreases |s| - i
  {
    var all := s + ['/'] + t;
    if i == |s| {
      SplitBehind(s + ['/'], t, 0, []);
    } else if s[i] == '/' {
      assert all[i] == '/';
      SplitAtSlash(s, t, i + 1, []);
    } else {
      assert all[i] == s[i];
      SplitAtSlash(s, t, i + 1, piece + [s[i]]);
    }
  }

  lemma {:induction false} SplitBehind(s: string, t: string, i: nat, piece: string)
    requires i <= |t|
    ensures SplitFrom(s + t, |s| + i, piece) == SplitFrom(t, i, piece)
    decreases |t| - i
  {
    if i < |t| {
      assert (s + t)[|s| + i] == t[i];
      SplitBehind(s, t, i + 1, if t[i] == '/' then [] else piece + [t[i]]);
    }
  }

  lemma {:induction false} ResolveOn(rooted: bool, dir: seq<string>, first: seq<string>, second: seq<string>)
    ensures Resolve(rooted, dir, first + second) == Resolve(rooted, Resolve(rooted, dir, first), second)
    decreases first
  {
    if first == [] {
      assert first + second == second;
    } else {
      assert (first + second)[1..] == first[1..] + second;
      ResolveOn(rooted, Enter(rooted, dir, first[0]), first[1..], second);
    }
  }

  lemma JoinGoesOn(directory: string, file: string)
    requires directory != [] && file != []
    ensures Join(directory, file) == Formal(Rooted(directory), Resolve(Rooted(directory), Pieces(directory), Split(file)))
  {
    var path := directory + ['/'] + file;
    assert path[0] == directory[0];
    SplitAtSlash(directory, file, 0, []);
    ResolveOn(Rooted(directory), [], Split(directory), Split(file));
  }

  // ---------- names without slashes ----------

  predicate Plain(file: string) {
    '/' !in file && file != [] && file != HERE && file != UP
  }

  lemma {:induction false} SplitPlain(s: string, i: nat, piece: string)
    requires i <= |s| && '/' !in s
    ensures SplitFrom(s, i, piece) == [piece + s[i..]]
    decreases |s| - i
  {
    if i == |s| {
      assert piece + s[i..] == piece;
    } else {
      SplitPlain(s, i + 1, piece + [s[i]]);
      assert (piece + [s[i]]) + s[i + 1..] == piece + s[i..];
    }
  }

  /** A file without slashes is one piece. */
  lemma OnePiece(file: string)
    requires '/' !in file
    ensures Split(file) == [file]
  {
    SplitPlain(file, 0, []);
    assert [] + file[0..] == file;
  }

  /** A plain file is in the directory itself. */
  lemma JoinPlain(directory: string, file: string)
    requires directory != [] && Plain(file)
    ensures Join(directory, file) == Formal(Rooted(directory), Pieces(directory) + [file])
  {
    JoinGoesOn(directory, file);
    OnePiece(file);
    assert [file][1..] == [];
  }

  lemma JoinPlainIsInjective(directory: string, one: string, two: string)
    requires directory != [] && Plain(one) && Plain(two) && one != two
    ensures Join(directory, one) != Join(directory, two)
  {
    JoinPlain(directory, one);
    JoinPlain(directory, two);
    var dir := Pieces(directory);
    assert (dir + [one])[|dir|] == one && (dir + [two])[|dir|] == two;
  }

  lemma TemplateFileIsPlain(name: string)
    requires '/' !in name
    ensures Plain(TemplateFile(name))
  {
    var p, s := PREFIX, SUFFIX;
    assert |p| == 9 && '/' !in p && '/' !in s;
  }

  lemma TemplateFileIsInjective(a: string, b: string)
    requires TemplateFile(a) == TemplateFile(b)
    ensures a == b
  {
    var p, s := PREFIX, SUFFIX;
    assert TemplateFile(a)[|p|..|p| + |a|] == a && TemplateFile(b)[|p|..|p| + |b|] == b;
  }

  /** Names without slashes never share a file. */
  lemma PlainNamesAreApart(directory: string, a: string, b: string)
    requires directory != [] && '/' !in a && '/' !in b && a != b
    ensures Join(directory, TemplateFile(a)) != Join(directory, TemplateFile(b))
  {
    TemplateFileIsPlain(a);
    TemplateFileIsPlain(b);
    if TemplateFile(a) == TemplateFile(b) {
      TemplateFileIsInjective(a, b);
    }
    JoinPlainIsInjective(directory, TemplateFile(a), TemplateFile(b));
  }

  /** Above the start of a relative path one can only go on upwards; above the root there is nothing. */
  lemma {:induction false} UpAtTheStart(n: nat)
    ensures Resolve(false, [], seq(n, _ => UP)) == seq(n, _ => UP) && Resolve(true, [], seq(n, _ => UP)) == []
  {
    var ups := seq(n, _ => UP);
    NormalIsKept(false, ups, 0);
    assert ups[..0] == [] && ups[0..] == ups;
    if n > 0 {
      UpAtTheStart(n - 1);
      assert ups[1..] == seq(n - 1, _ => UP);
    }
  }

  // ---------- names with slashes ----------

  /** A name that leaves the directory it seems to name, and comes to the file of another template. */
  function Detour(x: string, a: string): (name: string) {
    x + ['/'] + UP + ['/'] + PREFIX + a
  }

  lemma SplitThree(first: string, second: string, third: string)
    requires '/' !in first && '/' !in second && '/' !in third
    ensures Split(first + ['/'] + second + ['/'] + third) == [first, second, third]
  {
    SplitAtSlash(first + ['/'] + second, third, 0, []);
    SplitAtSlash(first, second, 0, []);
    OnePiece(first);
    OnePiece(second);
    OnePiece(third);
  }

  /** For all names without slashes: "x/../template_a" is cached in the file of "a". */
  lemma DetoursCollide(directory: string, x: string, a: string)
    requires directory != [] && '/' !in x && '/' !in a
    ensures Join(directory, TemplateFile(Detour(x, a))) == Join(directory, TemplateFile(a)) && Detour(x, a) != a
  {
    var p, s, up := PREFIX, SUFFIX, UP;
    var first, third := p + x, TemplateFile(a);
    assert '/' !in first && '/' !in third && '/' !in up;
    DetourFile(p, x, up, a, s);
    SplitThree(first, up, third);
    TemplateFileIsPlain(a);
    JoinPlain(directory, third);
    JoinGoesOn(directory, TemplateFile(Detour(x, a)));
    ThreePieces(Rooted(directory), Pieces(directory), first, up, third);
    assert |Detour(x, a)| > |a|;
  }

  lemma DetourFile(p: string, x: string, up: string, a: string, s: string)
    ensures p + (x + ['/'] + up + ['/'] + p + a) + s == (p + x) + ['/'] + up + ['/'] + (p + a + s)
  {
  }

  lemma ThreePieces(rooted: bool, dir: seq<string>, first: string, up: string, third: string)
    requires first != [] && first != HERE && first != UP && up == UP && Plain(third)
    ensures Resolve(rooted, dir, [first, up, third]) == dir + [third]
  {
    assert [first, up, third][1..] == [up, third] && [up, third][1..] == [third];
    assert (dir + [first])[..|dir|] == dir;
    assert Enter(rooted, dir, first) == dir + [first] && Enter(rooted, dir + [first], up) == dir;
    assert Resolve(rooted, dir, [third]) == Resolve(rooted, dir + [third], []);
  }
}
