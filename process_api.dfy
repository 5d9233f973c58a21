/**
 * The process-name resolver of src/process_api.rs: the executable path of a
 * process (through a process handle that is always closed again), the
 * FileDescription string of its version resource, and the fallback from that
 * description to the file stem of the path.
 *
 * The Win32 calls become an abstract platform: a `ProcessTable` for the
 * process handles and a `VersionResource` value for what the version-info
 * queries answer. Strings are taken as already decoded from UTF-16.
 */
module ProcessApi {
  import opened Wrappers

  type u16 = x: int | 0 <= x < 0x1_0000
  type u32 = x: int | 0 <= x < 0x1_0000_0000

  const NUL: char := '\0'

  // ---------------------------------------------------------------------------
  // Trimming NUL padding (`trim_matches(char::from(0))`)
  // ---------------------------------------------------------------------------

  /** Every character of `s` in `[a, b)` is NUL. */
  predicate NulBetween(s: string, a: int, b: int)
    requires 0 <= a && b <= |s|
  {
    forall k :: a <= k < b ==> s[k] == NUL
  }

  /** Number of NUL characters at the front of `s`. */
  function LeadingNuls(s: string): (n: nat)
    ensures n <= |s|
    ensures NulBetween(s, 0, n)
    ensures n < |s| ==> s[n] != NUL
  {
    if s != [] && s[0] == NUL then 1 + LeadingNuls(s[1..]) else 0
  }

  /** Number of NUL characters at the back of `s`. */
  function TrailingNuls(s: string): (n: nat)
    ensures n <= |s|
    ensures NulBetween(s, |s| - n, |s|)
    ensures n < |s| ==> s[|s| - n - 1] != NUL
  {
    if s != [] && s[|s| - 1] == NUL then 1 + TrailingNuls(s[..|s| - 1]) else 0
  }

  /** `s` with every NUL removed from both ends; interior characters stay. */
  function TrimNul(s: string): (r: string)
    ensures r == [] || (r[0] != NUL && r[|r| - 1] != NUL)
  {
    var t := s[LeadingNuls(s)..];
    t[..|t| - TrailingNuls(t)]
  }

  /**
   * Reference definition of the trim: `r` is the slice `s[i..j]` of `s`,
   * everything outside it is NUL, and `r` neither starts nor ends with NUL.
   */
  predicate IsNulTrimAt(s: string, r: string, i: int, j: int)
  {
    0 <= i <= j <= |s| && r == s[i..j] && NulBetween(s, 0, i) && NulBetween(s, j, |s|)
    && (r == [] || (r[0] != NUL && r[|r| - 1] != NUL))
  }

  ghost predicate IsNulTrim(s: string, r: string)
  {
    exists i, j :: IsNulTrimAt(s, r, i, j)
  }

  lemma TrimNulIsNulTrim(s: string)
    ensures IsNulTrim(s, TrimNul(s))
  {
    var i := LeadingNuls(s);
    var t := s[i..];
    var tr := TrailingNuls(t);
    var j := i + |t| - tr;
    assert TrimNul(s) == t[..|t| - tr];
    assert t[..|t| - tr] == s[i..j];
    assert IsNulTrimAt(s, TrimNul(s), i, j);
  }

  /** There is only one such slice, so the reference definition pins the trim down. */
  lemma NulTrimUnique(s: string, r: string)
    requires IsNulTrim(s, r)
    ensures r == TrimNul(s)
  {
    var i, j :| IsNulTrimAt(s, r, i, j);
    var l := LeadingNuls(s);
    var t := s[l..];
    var tr := TrailingNuls(t);
    if r == [] {
      assert NulBetween(s, 0, |s|);
      assert l == |s|;
    } else {
      assert s[i] == r[0] && s[j - 1] == r[|r| - 1];
      assert l == i;
      assert tr == |s| - j;
      assert TrimNul(s) == t[..|t| - tr];
    }
  }

  lemma TrimNulIdempotent(s: string)
    ensures TrimNul(TrimNul(s)) == TrimNul(s)
  {
    var r := TrimNul(s);
    assert IsNulTrimAt(r, r, 0, |r|);
    NulTrimUnique(r, r);
  }

  // ---------------------------------------------------------------------------
  // The version-resource lookup key: `format!("\\StringFileInfo\\{:04x}{:04x}\\FileDescription", ...)`
  // ---------------------------------------------------------------------------

  /** One entry of the `\VarFileInfo\Translation` table of a VS_VERSIONINFO resource. */
  datatype LangCodePage = LangCodePage(wLanguage: u16, wCodePage: u16)

  const HEX_DIGITS: string := "0123456789abcdef"
  const KEY_PREFIX: string := "\\StringFileInfo\\"
  const KEY_SUFFIX: string := "\\FileDescription"

  function HexDigit(d: nat): (c: char)
    requires d < 16
    ensures c in HEX_DIGITS
  {
    HEX_DIGITS[d]
  }

  /** The value of a lowercase hexadecimal digit. */
  function HexValue(c: char): nat
  {
    if '0' <= c <= '9' then c as nat - '0' as nat
    else if 'a' <= c <= 'f' then c as nat - 'a' as nat + 10
    else 0
  }

  /** `{:04x}` of a 16-bit value: four lowercase digits, zero padded. */
  function Hex4(v: u16): (r: string)
    ensures |r| == 4
    ensures forall i :: 0 <= i < 4 ==> r[i] in HEX_DIGITS
  {
    [HexDigit(v / 16 / 16 / 16), HexDigit(v / 16 / 16 % 16), HexDigit(v / 16 % 16), HexDigit(v % 16)]
  }

  /** Reads four hex digits back; the inverse of Hex4. */
  function ParseHex4(s: string): nat
    requires |s| == 4
  {
    ((HexValue(s[0]) * 16 + HexValue(s[1])) * 16 + HexValue(s[2])) * 16 + HexValue(s[3])
  }

  lemma HexValueOfDigit(d: nat)
    requires d < 16
    ensures HexValue(HexDigit(d)) == d
  {
  }

  lemma ParseHex4OfHex4(v: u16)
    ensures ParseHex4(Hex4(v)) == v
  {
    var q1 := v / 16;
    var q2 := q1 / 16;
    var q3 := q2 / 16;
    assert q1 < 4096 && q2 < 256 && q3 < 16;
    HexValueOfDigit(q3);
    HexValueOfDigit(q2 % 16);
    HexValueOfDigit(q1 % 16);
    HexValueOfDigit(v % 16);
    assert q2 == q3 * 16 + q2 % 16;
    assert q1 == q2 * 16 + q1 % 16;
    assert v == q1 * 16 + v % 16;
  }

  /** The key queried for the file description under the given translation. */
  function LookupKey(lang: LangCodePage): (r: string)
    ensures |r| == 40
    ensures r[..16] == KEY_PREFIX && r[24..] == KEY_SUFFIX
    ensures r[16..20] == Hex4(lang.wLanguage) && r[20..24] == Hex4(lang.wCodePage)
  {
    KEY_PREFIX + Hex4(lang.wLanguage) + Hex4(lang.wCodePage) + KEY_SUFFIX
  }

  /** Distinct (language, code page) pairs never share a lookup key. */
  lemma LookupKeyInjective(a: LangCodePage, b: LangCodePage)
    ensures LookupKey(a) == LookupKey(b) <==> a == b
  {
    if LookupKey(a) == LookupKey(b) {
      ParseHex4OfHex4(a.wLanguage);
      ParseHex4OfHex4(b.wLanguage);
      ParseHex4OfHex4(a.wCodePage);
      ParseHex4OfHex4(b.wCodePage);
      assert Hex4(a.wLanguage) == LookupKey(a)[16..20] == Hex4(b.wLanguage);
      assert Hex4(a.wCodePage) == LookupKey(a)[20..24] == Hex4(b.wCodePage);
    }
  }

  // ---------------------------------------------------------------------------
  // `Path::file_stem` on a Windows path
  // ---------------------------------------------------------------------------

  predicate IsSeparator(c: char)
  {
    c == '\\' || c == '/'
  }

  /** Index of the last separator of `s`, or -1 when it has none. */
  function LastSeparator(s: string): (k: int)
    ensures -1 <= k < |s|
    ensures k >= 0 ==> IsSeparator(s[k])
    ensures forall j :: k < j < |s| ==> !IsSeparator(s[j])
  {
    if s == [] then -1
    else if IsSeparator(s[|s| - 1]) then |s| - 1
    else LastSeparator(s[..|s| - 1])
  }

  /** Index of the last '.' of `s`, or -1 when it has none. */
  function LastDot(s: string): (k: int)
    ensures -1 <= k < |s|
    ensures k >= 0 ==> s[k] == '.'
    ensures forall j :: k < j < |s| ==> s[j] != '.'
  {
    if s == [] then -1
    else if s[|s| - 1] == '.' then |s| - 1
    else LastDot(s[..|s| - 1])
  }

  /** The path with a leading drive prefix such as `C:` removed. */
  function WithoutDrive(path: string): string
  {
    if |path| >= 2 && (('a' <= path[0] <= 'z') || ('A' <= path[0] <= 'Z')) && path[1] == ':'
    then path[2..] else path
  }

  /**
   * The last component of `p` that names a file: empty components and `.`
   * are skipped, and a final `..` means there is none.
   */
  function LastNormalComponent(p: string): (r: Option<string>)
    ensures r.Some? ==> r.value != "" && r.value != "." && r.value != ".."
    ensures r.Some? ==> forall j :: 0 <= j < |r.value| ==> !IsSeparator(r.value[j])
    decreases |p|
  {
    var k := LastSeparator(p);
    var last := p[k + 1..];
    if last == "" || last == "." then
      if k < 0 then None else LastNormalComponent(p[..k])
    else if last == ".." then None
    else Some(last)
  }

  /** `t[k]` is a `.` component of its own: a lone dot between separators or ends. */
  predicate LoneDot(t: string, k: nat)
    requires k < |t|
  {
    t[k] == '.' && (k == 0 || IsSeparator(t[k - 1])) && (k + 1 == |t| || IsSeparator(t[k + 1]))
  }

  /** `t[k]` is a separator or a `.` component of its own. */
  predicate Skippable(t: string, k: nat)
    requires k < |t|
  {
    IsSeparator(t[k]) || LoneDot(t, k)
  }

  /** `t` holds nothing but separators and `.` components. */
  predicate TrivialTail(t: string)
  {
    forall k :: 0 <= k < |t| ==> Skippable(t, k)
  }

  /**
   * `p[i..j]` is a whole component of `p` (separators or the ends on both
   * sides, none inside), and every component after it is empty or `.`.
   */
  predicate IsLastComponent(p: string, i: nat, j: nat)
  {
    i <= j <= |p|
    && (i == 0 || IsSeparator(p[i - 1]))
    && (j == |p| || IsSeparator(p[j]))
    && (forall m :: i <= m < j ==> !IsSeparator(p[m]))
    && TrivialTail(p[j..])
  }

  /** The last component of `p` that is neither empty nor `.` is `..`, starting at `i`. */
  predicate ParentLast(p: string, i: nat)
  {
    i + 2 <= |p| && IsLastComponent(p, i, i + 2) && p[i] == '.' && p[i + 1] == '.'
  }

  /**
   * `r` is the file name of `p`: when present, a whole component after which
   * every component is empty or `.`; absent exactly when every component is
   * empty or `.`, or the last other component is `..`.
   */
  ghost predicate IsFileNameOf(p: string, r: Option<string>)
  {
    (r.Some? ==> exists i: nat, j: nat :: IsLastComponent(p, i, j) && r.value == p[i..j])
    && (r.None? <==> TrivialTail(p) || exists i: nat :: ParentLast(p, i))
  }

  /**
   * The file name is the last component of the path other than an empty one
   * or `.`; there is none when every component is empty or `.`, or when the
   * last other one is `..`.
   */
  lemma {:induction false} LastNormalComponentIsLast(p: string)
    ensures IsFileNameOf(p, LastNormalComponent(p))
    decreases |p|
  {
    var k := LastSeparator(p);
    var last := p[k + 1..];
    if last == "" || last == "." {
      if k < 0 {
        assert p == last;
      } else {
        var q := p[..k];
        LastNormalComponentIsLast(q);
        SkipTrivialLast(p, k, LastNormalComponent(q));
      }
    } else if last == ".." {
      ParentIsLast(p, k);
    } else {
      NormalLast(p, k);
    }
  }

  /**
   * The case of `LastNormalComponentIsLast` where the path ends in a separator
   * and nothing or `.`: the file name of the path before that separator is
   * the file name of the whole path.
   */
  lemma SkipTrivialLast(p: string, k: nat, r: Option<string>)
    requires k < |p| && IsSeparator(p[k]) && (p[k + 1..] == "" || p[k + 1..] == ".")
    requires IsFileNameOf(p[..k], r)
    ensures IsFileNameOf(p, r)
  {
    var q := p[..k];
    TrivialTailDrop(p, k);
    ParentLastDrop(p, k);
    if r.Some? {
      var i: nat, j: nat :| IsLastComponent(q, i, j) && r.value == q[i..j];
      LastComponentDrop(p, k, i, j);
      assert q[i..j] == p[i..j];
    }
  }

  /** The case of `LastNormalComponentIsLast` where the part after the last separator is `..`. */
  lemma ParentIsLast(p: string, k: int)
    requires -1 <= k < |p| && p[k + 1..] == ".."
    requires forall m :: k < m < |p| ==> !IsSeparator(p[m])
    requires k >= 0 ==> IsSeparator(p[k])
    ensures IsFileNameOf(p, None)
  {
    var last := p[k + 1..];
    assert p[k + 1] == last[0] == '.' && p[k + 2] == last[1] == '.';
    assert p[|p|..] == "";
    assert ParentLast(p, k + 1);
  }

  /**
   * The case of `LastNormalComponentIsLast` where the part after the last
   * separator `k` is neither empty, `.` nor `..`: that part is the file name.
   */
  lemma NormalLast(p: string, k: int)
    requires -1 <= k < |p| && p[k + 1..] != "" && p[k + 1..] != "." && p[k + 1..] != ".."
    requires forall m :: k < m < |p| ==> !IsSeparator(p[m])
    requires k >= 0 ==> IsSeparator(p[k])
    ensures IsFileNameOf(p, Some(p[k + 1..]))
  {
    assert |p| == k + 2 ==> p[k + 1] != '.';
    assert |p| == k + 3 ==> !(p[k + 1] == '.' && p[k + 2] == '.');
    NormalLastFacts(p, k);
  }

  /** The facts behind `NormalLast`, stated on characters. */
  lemma NormalLastFacts(p: string, k: int)
    requires -1 <= k < |p| - 1
    requires |p| == k + 2 ==> p[k + 1] != '.'
    requires |p| == k + 3 ==> !(p[k + 1] == '.' && p[k + 2] == '.')
    requires forall m :: k < m < |p| ==> !IsSeparator(p[m])
    requires k >= 0 ==> IsSeparator(p[k])
    ensures IsLastComponent(p, k + 1, |p|)
    ensures !TrivialTail(p) && forall i: nat :: !ParentLast(p, i)
  {
    assert p[|p|..] == "";
    NotTrivialTail(p, k, 0);
    assert p[0..] == p;
    NoParentLast(p, k);
  }

  /** A final separator followed by nothing or `.` does not change whether the last component is `..`. */
  lemma ParentLastDrop(p: string, k: nat)
    requires k < |p| && IsSeparator(p[k]) && (p[k + 1..] == "" || p[k + 1..] == ".")
    ensures forall i: nat :: ParentLast(p, i) <==> ParentLast(p[..k], i)
  {
    var q := p[..k];
    forall i: nat | ParentLast(p, i)
      ensures ParentLast(q, i)
    {
      assert i != k && i + 1 != k;
      LastComponentDrop(p, k, i, i + 2);
    }
    forall i: nat | ParentLast(q, i)
      ensures ParentLast(p, i)
    {
      LastComponentDrop(p, k, i, i + 2);
    }
  }

  /** When the part after the last separator is neither empty, `.` nor `..`, the last component is not `..`. */
  lemma NoParentLast(p: string, k: int)
    requires -1 <= k < |p| - 1
    requires |p| == k + 2 ==> p[k + 1] != '.'
    requires |p| == k + 3 ==> !(p[k + 1] == '.' && p[k + 2] == '.')
    requires forall m :: k < m < |p| ==> !IsSeparator(p[m])
    requires k >= 0 ==> IsSeparator(p[k])
    ensures forall i: nat :: !ParentLast(p, i)
  {
    forall i: nat
      ensures !ParentLast(p, i)
    {
      NoParentLastAt(p, k, i);
    }
  }

  lemma NoParentLastAt(p: string, k: int, i: nat)
    requires -1 <= k < |p| - 1
    requires |p| == k + 2 ==> p[k + 1] != '.'
    requires |p| == k + 3 ==> !(p[k + 1] == '.' && p[k + 2] == '.')
    requires forall m :: k < m < |p| ==> !IsSeparator(p[m])
    requires k >= 0 ==> IsSeparator(p[k])
    ensures !ParentLast(p, i)
  {
    if i + 2 < |p| && IsSeparator(p[i + 2]) {
      assert i + 2 <= k;
      NotTrivialTail(p, k, i + 2);
    }
  }

  /** A final separator followed by nothing or `.` does not change which tails are trivial. */
  lemma TrivialTailDrop(p: string, k: nat)
    requires k < |p| && IsSeparator(p[k]) && (p[k + 1..] == "" || p[k + 1..] == ".")
    ensures TrivialTail(p) <==> TrivialTail(p[..k])
  {
    var q := p[..k];
    if TrivialTail(p) {
      forall m | 0 <= m < |q|
        ensures Skippable(q, m)
      {
        assert Skippable(p, m);
      }
    }
    if TrivialTail(q) {
      forall m | 0 <= m < |p|
        ensures Skippable(p, m)
      {
        if m < k {
          assert Skippable(q, m);
        }
      }
    }
  }

  /** A component ending before a final separator followed by nothing or `.` is last in both. */
  lemma LastComponentDrop(p: string, k: nat, i: nat, j: nat)
    requires k < |p| && IsSeparator(p[k]) && (p[k + 1..] == "" || p[k + 1..] == ".")
    requires j <= k
    ensures IsLastComponent(p, i, j) <==> IsLastComponent(p[..k], i, j)
  {
    var t := p[j..];
    TrivialTailDrop(t, k - j);
    assert t[..k - j] == p[..k][j..];
    assert t[k - j + 1..] == p[k + 1..];
  }

  /**
   * When the part after the last separator `k` is neither empty nor `.`, no
   * tail reaching back over it is trivial.
   */
  lemma NotTrivialTail(p: string, k: int, s: nat)
    requires -1 <= k < |p| - 1 && s <= k + 1
    requires forall m :: k < m < |p| ==> !IsSeparator(p[m])
    requires |p| == k + 2 ==> p[k + 1] != '.'
    ensures !TrivialTail(p[s..])
  {
    var t := p[s..];
    var x := k + 1 - s;
    assert t[x] == p[k + 1];
    if p[k + 1] == '.' {
      assert |p| > k + 2;
      assert t[x + 1] == p[k + 2];
    }
    assert !Skippable(t, x);
  }

  /**
   * `Path::file_name`: after the drive prefix, the last component that is
   * neither empty nor `.`, unless that component is `..`.
   */
  function FileName(path: string): (r: Option<string>)
    ensures r.Some? ==> r.value != "" && r.value != "." && r.value != ".."
    ensures IsFileNameOf(WithoutDrive(path), r)
  {
    LastNormalComponentIsLast(WithoutDrive(path));
    LastNormalComponent(WithoutDrive(path))
  }

  /**
   * The stem of a file name: everything before its last '.', except that a
   * name whose only '.' leads it (`.profile`) has no extension.
   */
  function Stem(name: string): (r: string)
    requires name != ""
    ensures r != "" && r <= name
    ensures r == name <==> forall j :: 0 < j < |name| ==> name[j] != '.'
    ensures r != name ==> name[|r|] == '.' && forall j :: |r| < j < |name| ==> name[j] != '.'
  {
    var d := LastDot(name);
    if d <= 0 then name else name[..d]
  }

  /** `Path::file_stem`. */
  function FileStem(path: string): (r: Option<string>)
    ensures r.Some? <==> FileName(path).Some?
    ensures r.Some? ==> r.value != "" && r.value <= FileName(path).value
  {
    match FileName(path)
    case None => None
    case Some(name) => Some(Stem(name))
  }

  // ---------------------------------------------------------------------------
  // get_process_name: description first, file stem second
  // ---------------------------------------------------------------------------

  /**
   * The display name of a process whose executable is at `path`, given the
   * outcome of GetFileDescription for that path.
   */
  function ProcessName(path: string, description: Result<string>): (r: Result<string>)
    ensures r.Ok?
    ensures description.Ok? && description.value != "" ==> r == description
    ensures !(description.Ok? && description.value != "") ==> r.value == FileStem(path).GetOr("")
    ensures r.value == "" <==> !(description.Ok? && description.value != "") && FileName(path).None?
  {
    if description.Ok? && description.value != "" then description
    else Ok(FileStem(path).GetOr(""))
  }

  lemma ToolExeExample()
    ensures FileStem("C:\\bin\\tool.exe") == Some("tool")
    ensures ProcessName("C:\\bin\\tool.exe", Err) == Ok("tool")
    ensures ProcessName("C:\\bin\\tool.exe", Ok("")) == Ok("tool")
  {
    ToolExeFileName();
    ToolExeStem();
  }

  /** `C:\games\game.exe` without a description is named `game`. */
  lemma GameExeExample()
    ensures ProcessName("C:\\games\\game.exe", Err) == Ok("game")
  {
    GameExeFileName();
    GameExeStem();
  }

  lemma GameExeFileName()
    ensures FileName("C:\\games\\game.exe") == Some("game.exe")
  {
    var p := "\\games\\game.exe";
    assert WithoutDrive("C:\\games\\game.exe") == p;
    assert LastSeparator(p) == 6 by {
      assert IsSeparator(p[6]);
      assert forall j :: 6 < j < |p| ==> !IsSeparator(p[j]);
    }
    assert p[7..] == "game.exe";
  }

  lemma GameExeStem()
    ensures Stem("game.exe") == "game"
  {
    var n := "game.exe";
    assert LastDot(n) == 4 by {
      assert n[4] == '.';
      assert forall j :: 4 < j < |n| ==> n[j] != '.';
    }
    assert n[..4] == "game";
  }

  /** The file name of `C:\bin\tool.exe` is `tool.exe`. */
  lemma ToolExeFileName()
    ensures FileName("C:\\bin\\tool.exe") == Some("tool.exe")
  {
    var p := "\\bin\\tool.exe";
    assert WithoutDrive("C:\\bin\\tool.exe") == p;
    assert LastSeparator(p) == 4 by {
      assert IsSeparator(p[4]);
      assert forall j :: 4 < j < |p| ==> !IsSeparator(p[j]);
    }
    assert p[5..] == "tool.exe";
  }

  /** The stem of `tool.exe` is `tool`. */
  lemma ToolExeStem()
    ensures Stem("tool.exe") == "tool"
  {
    var s := "tool.exe";
    assert LastDot(s) == 4 by {
      assert s[4] == '.';
      assert forall j :: 4 < j < |s| ==> s[j] != '.';
    }
    assert s[..4] == "tool";
  }

  // ---------------------------------------------------------------------------
  // get_file_description
  // ---------------------------------------------------------------------------

  /**
   * What the version-info API answers for one executable: the size that
   * GetFileVersionInfoSizeW reports, whether GetFileVersionInfoW can read the
   * block, the first `\VarFileInfo\Translation` entry (None when that query
   * fails), and the decoded value of each key VerQueryValueW can resolve.
   * The byte length the translation query returns is not consulted, so an
   * empty table still yields the entry the returned pointer reaches.
   */
  datatype VersionResource = VersionResource(
    infoSize: u32,
    readable: bool,
    translation: Option<LangCodePage>,
    values: map<string, string>)

  method GetFileDescription(res: VersionResource) returns (r: Result<string>)
    ensures r.Err? <==> res.infoSize == 0 || !res.readable || res.translation.None?
                        || LookupKey(res.translation.value) !in res.values
    ensures r.Ok? ==> r.value == TrimNul(res.values[LookupKey(res.translation.value)])
  {
    var infoSize := res.infoSize;
    if infoSize == 0 {
      return Err;
    }
    if !res.readable {
      return Err;
    }
    var langQuery := res.translation;
    if langQuery.None? {
      return Err;
    }
    // Only the entry at the returned pointer is read; the slice always has
    // length one, so the emptiness check the source makes next never fires.
    var lang := langQuery.value;
    var langCode := LookupKey(lang);
    if langCode !in res.values {
      return Err;
    }
    var fileDescription := res.values[langCode];
    r := Ok(TrimNul(fileDescription));
  }

  /** The version resource holds a description that is non-empty once trimmed. */
  predicate HasDescription(res: VersionResource)
  {
    res.infoSize != 0 && res.readable && res.translation.Some?
    && LookupKey(res.translation.value) in res.values
    && TrimNul(res.values[LookupKey(res.translation.value)]) != ""
  }

  /**
   * get_process_name: the trimmed FileDescription of the executable when
   * there is a non-empty one, otherwise the file stem of its path; never an
   * error.
   */
  method GetProcessName(path: string, res: VersionResource) returns (r: Result<string>)
    ensures r.Ok?
    ensures HasDescription(res) ==> r.value == TrimNul(res.values[LookupKey(res.translation.value)])
    ensures !HasDescription(res) ==> r.value == FileStem(path).GetOr("")
  {
    var fileDescription := GetFileDescription(res);
    r := ProcessName(path, fileDescription);
  }

  // ---------------------------------------------------------------------------
  // get_process_path and its process handle
  // ---------------------------------------------------------------------------

  const MAX_PATH: nat := 260

  type Handle = nat

  datatype HandleEvent = Opened(h: Handle) | Queried(h: Handle) | Closed(h: Handle)

  /** How many UTF-16 code units encode `c`: two for a character above U+FFFF. */
  function CodeUnits(c: char): nat
  {
    if c as int > 0xFFFF then 2 else 1
  }

  /** The length of `s` in UTF-16 code units, the unit Win32 buffer sizes count. */
  function Utf16Length(s: string): (n: nat)
    ensures |s| <= n <= 2 * |s|
    ensures n == |s| <==> forall i :: 0 <= i < |s| ==> s[i] as int <= 0xFFFF
  {
    if s == [] then 0 else Utf16Length(s[..|s| - 1]) + CodeUnits(s[|s| - 1])
  }

  /** A string of `n` copies of one character takes `n` times its code units. */
  lemma {:induction false} Utf16LengthRepeated(c: char, n: nat)
    ensures Utf16Length(seq(n, _ => c)) == n * CodeUnits(c)
  {
    if n > 0 {
      assert seq(n, _ => c)[..n - 1] == seq(n - 1, _ => c);
      Utf16LengthRepeated(c, n - 1);
    }
  }

  /** 200 characters U+1F600 are 400 code units, too long for a MAX_PATH buffer. */
  lemma AstralPathTooLong()
    ensures var p := seq(200, _ => '\U{1F600}'); |p| < MAX_PATH && Utf16Length(p) >= MAX_PATH
  {
    Utf16LengthRepeated('\U{1F600}', 200);
  }

  /**
   * The image name behind a process: unavailable to the query, present but
   * not valid UTF-16 (only its length in code units matters then), or a
   * decoded path.
   */
  datatype ImageName = Unavailable | Undecodable(length: nat) | ImagePath(path: string)
  {
    /** The length in UTF-16 code units. */
    function Length(): nat
    {
      match this
      case Unavailable => 0
      case Undecodable(n) => n
      case ImagePath(p) => Utf16Length(p)
    }
  }

  /** A process as the platform sees it: whether it may be opened, and its image. */
  datatype ProcessRecord = ProcessRecord(openable: bool, image: ImageName)

  /** The platform's process subsystem: the processes, the open handles, and every handle call made. */
  class ProcessTable {
    const processes: map<u32, ProcessRecord>
    var open: map<Handle, u32>
    var nextHandle: Handle
    var log: seq<HandleEvent>

    ghost predicate Valid()
      reads this
    {
      forall h :: h in open ==> h < nextHandle && open[h] in processes
    }

    constructor (processes: map<u32, ProcessRecord>)
      ensures Valid()
      ensures this.processes == processes && open == map[] && log == []
    {
      this.processes := processes;
      open := map[];
      nextHandle := 0;
      log := [];
    }

    /** get_process_handle: OpenProcess with limited query rights. */
    method GetProcessHandle(pid: u32) returns (r: Option<Handle>)
      requires Valid()
      modifies this
      ensures Valid()
      ensures r.Some? <==> pid in processes && processes[pid].openable
      ensures r.Some? ==> r.value == old(nextHandle) && r.value !in old(open)
                          && open == old(open)[r.value := pid] && nextHandle == old(nextHandle) + 1
                          && log == old(log) + [Opened(r.value)]
      ensures r.None? ==> open == old(open) && nextHandle == old(nextHandle) && log == old(log)
    {
      if pid in processes && processes[pid].openable {
        r := Some(nextHandle);
        open := open[nextHandle := pid];
        log := log + [Opened(nextHandle)];
        nextHandle := nextHandle + 1;
      } else {
        r := None;
      }
    }

    /**
     * QueryFullProcessImageNameW into a buffer of `capacity` UTF-16 code units: it
     * fails when the image is unavailable or does not fit with its terminator.
     */
    method QueryFullProcessImageName(h: Handle, capacity: nat) returns (success: bool, buffer: ImageName)
      requires Valid() && h in open
      modifies this
      ensures Valid() && open == old(open) && nextHandle == old(nextHandle)
      ensures log == old(log) + [Queried(h)]
      ensures success <==> processes[open[h]].image != Unavailable && processes[open[h]].image.Length() < capacity
      ensures success ==> buffer == processes[open[h]].image
    {
      var image := processes[open[h]].image;
      success := image != Unavailable && image.Length() < capacity;
      buffer := if success then image else Unavailable;
      log := log + [Queried(h)];
    }

    /** close_process_handle: CloseHandle. */
    method CloseProcessHandle(h: Handle)
      requires Valid() && h in open
      modifies this
      ensures Valid() && open == old(open) - {h} && nextHandle == old(nextHandle)
      ensures log == old(log) + [Closed(h)]
    {
      open := open - {h};
      log := log + [Closed(h)];
    }
  }

  /**
   * get_process_path: open the process, query its image path, close the
   * handle before looking at the outcome, then decode the buffer.
   */
  method GetProcessPath(table: ProcessTable, pid: u32) returns (r: Result<string>)
    requires table.Valid()
    modifies table
    ensures table.Valid() && table.open == old(table.open)
    ensures !(pid in table.processes && table.processes[pid].openable) ==>
              r.Err? && table.log == old(table.log) && table.nextHandle == old(table.nextHandle)
    ensures pid in table.processes && table.processes[pid].openable ==>
              var h := old(table.nextHandle);
              table.log == old(table.log) + [Opened(h), Queried(h), Closed(h)]
    ensures r.Ok? <==> pid in table.processes && table.processes[pid].openable
                       && table.processes[pid].image.ImagePath?
                       && Utf16Length(table.processes[pid].image.path) < MAX_PATH
    ensures r.Ok? ==> r.value == table.processes[pid].image.path
  {
    var handle := table.GetProcessHandle(pid);
    if handle.None? {
      return Err;
    }
    var processHandle := handle.value;
    var lpdwSize := MAX_PATH;
    var success, processPath := table.QueryFullProcessImageName(processHandle, lpdwSize);
    table.CloseProcessHandle(processHandle);
    assert table.open == old(table.open);
    if !success {
      return Err;
    }
    match processPath
    case ImagePath(p) => r := Ok(p);
    case _ => r := Err;
  }
}
