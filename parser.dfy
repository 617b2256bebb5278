/**
 * Two helpers of compiler/parser/parser.cpp: the module name a source file
 * gets when it declares no module itself, and the test whether a parsed
 * file holds nothing but module declarations.
 */
module Parser {
  import opened Ast

  // ------------------------------------------------- filenameToModulename

  /** Index of the last '/' of s, or -1 when there is none (strrchr). */
  function LastSlash(s: seq<char>): (r: int)
    ensures -1 <= r < |s|
    ensures r >= 0 ==> s[r] == '/'
    ensures forall k :: r < k < |s| ==> s[k] != '/'
    decreases |s|
  {
    if s == [] then -1
    else if s[|s| - 1] == '/' then |s| - 1
    else LastSlash(s[..|s| - 1])
  }

  /** Index of the first '.' of s, or |s| when there is none (strchr). */
  function FirstDot(s: seq<char>): (r: nat)
    ensures r <= |s|
    ensures r < |s| ==> s[r] == '.'
    ensures forall k :: 0 <= k < r ==> s[k] != '.'
    decreases |s|
  {
    if s == [] then 0
    else if s[0] == '.' then 0
    else 1 + FirstDot(s[1..])
  }

  /** The part of a path after its last '/'. */
  function Basename(s: seq<char>): seq<char> {
    s[LastSlash(s) + 1..]
  }

  /** The module name of a file: its basename up to the first '.'. */
  function ModuleName(filename: seq<char>): seq<char> {
    var b := Basename(filename);
    b[..FirstDot(b)]
  }

  /** strrchr(buf, '/') on a buffer holding s and then a NUL. */
  method FindLastSlash(buf: array<char>, ghost s: seq<char>) returns (lastslash: int)
    requires buf.Length == |s| + 1 && buf[..|s|] == s && buf[|s|] == '\0' && '\0' !in s
    ensures lastslash == LastSlash(s)
  {
    assert forall k :: 0 <= k < |s| ==> buf[k] == s[k] != '\0';
    lastslash := -1;
    var i := 0;
    while buf[i] != '\0'
      invariant 0 <= i <= |s|
      invariant lastslash == LastSlash(s[..i])
      decreases |s| - i
    {
      assert buf[i] == s[i];
      assert s[..i + 1][..i] == s[..i];
      if buf[i] == '/' {
        lastslash := i;
      }
      i := i + 1;
    }
    assert s[..i] == s;
  }

  /** strchr(buf + start, '.'), or the terminating NUL when there is none, as an index. */
  method FindDot(buf: array<char>, ghost s: seq<char>, start: nat) returns (dot: nat)
    requires buf.Length == |s| + 1 && buf[..|s|] == s && buf[|s|] == '\0' && '\0' !in s
    requires start <= |s|
    ensures start + FirstDot(s[start..]) == dot
  {
    assert forall k :: 0 <= k < |s| ==> buf[k] == s[k] != '\0';
    dot := start;
    while buf[dot] != '\0' && buf[dot] != '.'
      invariant start <= dot <= |s|
      invariant forall k :: start <= k < dot ==> s[k] != '.'
      decreases |s| - dot
    {
      assert buf[dot] == s[dot];
      dot := dot + 1;
    }
    FirstDotUnique(s[start..], dot - start);
  }

  /**
   * filenameToModulename: copy the name into a NUL-terminated buffer, step
   * past the last '/', and end the string at the first '.' after it.  A C
   * string holds no NUL.
   */
  method FilenameToModulename(filename: seq<char>) returns (modulename: seq<char>)
    requires '\0' !in filename
    ensures modulename == ModuleName(filename)
  {
    var buf := NulTerminated(filename);
    var lastslash := FindLastSlash(buf, filename);
    var start := lastslash + 1;
    var dot := FindDot(buf, filename, start);
    ModuleNameSlice(filename, start, dot);
    ghost var name := buf[start..dot];
    assert name == buf[..|filename|][start..dot];
    if buf[dot] == '.' {
      buf[dot] := '\0';
    }
    modulename := buf[start..dot];
    assert modulename == name;
  }

  /** A fresh buffer holding s and then a NUL, as strdup makes it. */
  method NulTerminated(s: seq<char>) returns (buf: array<char>)
    ensures fresh(buf)
    ensures buf.Length == |s| + 1 && buf[..|s|] == s && buf[|s|] == '\0'
  {
    buf := new char[|s| + 1](i => if 0 <= i < |s| then s[i] else '\0');
    assert buf[..|s|] == s;
  }

  /** The module name as a slice of the file name, between the ends filenameToModulename finds. */
  lemma {:induction false} ModuleNameSlice(filename: seq<char>, start: nat, dot: nat)
    requires start == LastSlash(filename) + 1 && dot == start + FirstDot(filename[start..])
    ensures dot <= |filename| && ModuleName(filename) == filename[start..dot]
  {
  }

  /** The only index at which s has its first '.', or its end. */
  lemma {:induction false} FirstDotUnique(s: seq<char>, k: nat)
    requires k <= |s| && (k == |s| || s[k] == '.')
    requires forall m :: 0 <= m < k ==> s[m] != '.'
    ensures k == FirstDot(s)
  {
  }

  /** A module name holds neither '/' nor '.'. */
  lemma {:induction false} ModuleNameIsPlain(filename: seq<char>)
    ensures '/' !in ModuleName(filename) && '.' !in ModuleName(filename)
  {
    var b := Basename(filename);
    var m := ModuleName(filename);
    forall k | 0 <= k < |m|
      ensures m[k] != '/' && m[k] != '.'
    {
      assert m[k] == b[k] == filename[LastSlash(filename) + 1 + k];
    }
  }

  /**
   * The module name is the part of the name after its last '/' (the whole
   * name when it has none), up to the first '.' of that part (its end when
   * it has none).
   */
  lemma {:induction false} ModuleNameIsSlice(filename: seq<char>)
    ensures exists i, j ::
      0 <= i <= j <= |filename| && ModuleName(filename) == filename[i..j] &&
      (i == 0 || filename[i - 1] == '/') && (forall k :: i <= k < |filename| ==> filename[k] != '/') &&
      (j == |filename| || filename[j] == '.') && (forall k :: i <= k < j ==> filename[k] != '.')
  {
    var i := LastSlash(filename) + 1;
    var b := Basename(filename);
    var j := i + FirstDot(b);
    assert forall k :: 0 <= k < |b| ==> b[k] == filename[i + k];
    assert ModuleName(filename) == filename[i..j];
  }

  /** A name with neither '/' nor '.' is its own module name. */
  lemma {:induction false} PlainNameUnchanged(filename: seq<char>)
    requires '/' !in filename && '.' !in filename
    ensures ModuleName(filename) == filename
  {
    assert LastSlash(filename) == -1;
    FirstDotUnique(filename, |filename|);
  }

  // -------------------------------------------------- containsOnlyModules

  /** A statement declares a module, looking through a block to its first statement. */
  predicate IsModuleDef(s: Stmt) {
    var first := if s.Block? then (if s.body == [] then None else Some(s.body[0])) else Some(s);
    first.Some? && first.value.Def? && first.value.sym.ModuleSym?
  }

  /** containsOnlyModules: stop at the first statement that does not declare a module. */
  method ContainsOnlyModules(stmts: seq<Stmt>) returns (r: bool)
    ensures r <==> forall i :: 0 <= i < |stmts| ==> IsModuleDef(stmts[i])
  {
    var i := 0;
    while i < |stmts|
      invariant 0 <= i <= |stmts|
      invariant forall k :: 0 <= k < i ==> IsModuleDef(stmts[k])
    {
      var stmt := stmts[i];
      var isModuleDef := false;
      var present := true;
      if stmt.Block? {
        if stmt.body == [] {
          present := false;
        } else {
          stmt := stmt.body[0];
        }
      }
      if present && stmt.Def? && stmt.sym.ModuleSym? {
        isModuleDef := true;
      }
      if !isModuleDef {
        return false;
      }
      i := i + 1;
    }
    return true;
  }
}
