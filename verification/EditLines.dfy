/** How the native edit parser reads one line of a reply: block headers, markers and terminators. */
module EditLines {
  import opened Text
  import opened FileSanitize

  /** Path handling that lives outside the parser: SanitizeNativeEditRelPath, IsValidImplementBeadPath. */
  datatype Config = Config(path: string -> string, valid: string -> bool)

  const SEARCH := "<<<<<<< SEARCH"
  const DIVIDER := "======="
  const END := ">>>>>>> REPLACE"
  const REPLACE_ALL := "REPLACE_ALL"
  const WRITE_END := "---END WRITE---"

  /** A block header; `blocked` means a path that the validity check refuses. */
  datatype Head = NoHead | Read(path: string) | Edit(path: string, blocked: bool) | Write(path: string, blocked: bool)

  /** What a line means inside an EDIT block, in the order the parser tries the meanings. */
  datatype Mark = SearchMark | DividerMark | AllMark | EndMark | FenceMark(bare: bool) | NoMark

  /** Everything the parser asks about one line. */
  datatype View = View(text: string, head: Head, mark: Mark, tool: bool, resumes: bool, pastMark: bool,
                       writeEnd: bool, dash: bool, dashTail: bool, bareFence: bool)

  predicate IsBacktick(c: char) {
    c == '`'
  }

  function Unquoted(line: string): string {
    Trim(TrimSpace(line), IsBacktick)
  }

  predicate StartsWithFold(s: string, upper: string) {
    HasPrefix(ToUpper(s), upper)
  }

  /** isOrchestratedLearnLine */
  predicate IsLearn(line: string) {
    var u := ToUpper(Unquoted(line));
    HasPrefix(u, "LEARN:") || (HasPrefix(u, "LEARN[") && First(u, "]:").Some? && First(u, "]:").value > 6)
  }

  /** What precedes the first occurrence of `p`, or all of `s`. */
  function Before(s: string, p: string): string {
    match First(s, p)
    case Some(k) => if k <= |s| then s[..k] else s
    case None => s
  }

  predicate StartsTool(t: string) {
    StartsWithFold(t, "CMD:") || StartsWithFold(t, "READ:") || StartsWithFold(t, "EDIT:") || StartsWithFold(t, "WRITE:")
  }

  /** isNativeOrchestratedToolLine */
  predicate IsTool(line: string) {
    StartsTool(TrimSpace(line)) || IsLearn(line)
  }

  predicate IsShortEnd(t: string) {
    var u := ToUpper(t);
    HasSuffix(u, "REPLACE") && HasPrefix(u, ">>>>>>") && !HasPrefix(u, ">>>>>>>") && TrimSpace(u[6..]) == "REPLACE"
  }

  /** isNativeEditEndMarker */
  predicate IsEnd(t: string) {
    t == END || EqualFold(t, "---END EDIT---") || IsShortEnd(t)
  }

  const FENCE_LANGS: set<string> := {"", "go", "golang", "python", "py", "bash", "sh", "shell", "text", "json",
    "diff", "patch", "md", "markdown", "ts", "typescript", "js", "javascript", "html", "css", "yaml", "yml", "sql"}

  /** isMarkdownFenceOnlyLine */
  predicate IsFence(t: string) {
    HasPrefix(t, "```") && ToLower(TrimSpace(t[3..])) in FENCE_LANGS
  }

  function MarkOf(t: string): Mark {
    if t == SEARCH then SearchMark
    else if t == DIVIDER then DividerMark
    else if HasPrefix(t, REPLACE_ALL) then AllMark
    else if IsEnd(t) then EndMark
    else if IsFence(t) then FenceMark(t == "```")
    else NoMark
  }

  predicate Blocked(cfg: Config, path: string) {
    path != "" && !cfg.valid(path)
  }

  function HeadOf(cfg: Config, line: string): Head {
    var t := Unquoted(line);
    if StartsWithFold(t, "READ:") then Read(cfg.path(t[5..]))
    else if StartsWithFold(t, "EDIT:") then
      var path := cfg.path(TrimSpace(Before(TrimSpace(t[5..]), "<<<<<<<")));
      Edit(path, Blocked(cfg, path))
    else if StartsWithFold(t, "WRITE:") then
      var path := cfg.path(t[6..]);
      Write(path, Blocked(cfg, path))
    else NoHead
  }

  predicate IsWriteEnd(line: string) {
    EqualFold(Unquoted(line), WRITE_END)
  }

  function ViewOf(cfg: Config, line: string): View {
    var t := TrimSpace(line);
    View(line, HeadOf(cfg, line), MarkOf(t), IsTool(line), StartsTool(t) || IsLearn(t),
         IsEnd(t) || t == DIVIDER || HasPrefix(t, ">>>>>>>"),
         IsWriteEnd(line), t == "---", EqualFold(t, "END WRITE---") || EqualFold(t, WRITE_END), t == "```")
  }

  function Views(cfg: Config, lines: seq<string>): (vs: seq<View>)
    ensures |vs| == |lines|
    decreases |lines|
  {
    if lines == [] then [] else [ViewOf(cfg, lines[0])] + Views(cfg, lines[1..])
  }

  lemma {:induction false} ViewsCons(cfg: Config, line: string, rest: seq<string>)
    ensures Views(cfg, [line] + rest) == [ViewOf(cfg, line)] + Views(cfg, rest)
  {
    assert ([line] + rest)[1..] == rest;
  }

  lemma {:induction false} ViewsAt(cfg: Config, lines: seq<string>, k: nat)
    requires k < |lines|
    ensures Views(cfg, lines)[k] == ViewOf(cfg, lines[k])
    decreases |lines|
  {
    var rest := lines[1..];
    assert lines == [lines[0]] + rest;
    ViewsCons(cfg, lines[0], rest);
    if k == 0 {
    } else {
      ViewsAt(cfg, rest, k - 1);
      assert rest[k - 1] == lines[k];
    }
  }

  lemma {:induction false} ConcatCons<T>(x: T, a: seq<T>, b: seq<T>)
    ensures [x] + (a + b) == ([x] + a) + b
  {
  }

  lemma {:induction false} ViewsAppend(cfg: Config, a: seq<string>, b: seq<string>)
    ensures Views(cfg, a + b) == Views(cfg, a) + Views(cfg, b)
    decreases |a|
  {
    if a == [] {
      assert a + b == b;
    } else {
      ViewsAppend(cfg, a[1..], b);
      ConcatCons(a[0], a[1..], b);
      assert a == [a[0]] + a[1..];
      ViewsCons(cfg, a[0], a[1..]);
      ViewsCons(cfg, a[0], a[1..] + b);
      ConcatCons(ViewOf(cfg, a[0]), Views(cfg, a[1..]), Views(cfg, b));
    }
  }

  /** isUnifiedDiffEditBody: a hunk header, or both a removed and an added line. */
  predicate IsDiffBody(body: string) {
    var t := TrimSpace(body);
    HasPrefix(t, "@@") || (HasSigned(Split(t, '\n'), '-') && HasSigned(Split(t, '\n'), '+'))
  }

  predicate HasSigned(ls: seq<string>, sign: char)
    decreases |ls|
  {
    ls != [] && (IsSigned(ls[0], sign) || HasSigned(ls[1..], sign))
  }

  predicate IsSigned(line: string, sign: char) {
    line != "" && line[0] == sign && !HasPrefix(line, "--- ") && !HasPrefix(line, "+++ ")
  }

  lemma {:induction false} DiffNonEmpty(r: string)
    ensures IsDiffBody(r) ==> r != ""
  {
    assert TrimSpace("") == "" && Split("", '\n') == [""] && [""][1..] == [];
    assert !HasSigned([""], '-');
  }

  /*** Lines the printer emits ***/

  lemma {:induction false} SpaceFree(t: string)
    requires t == SEARCH || t == DIVIDER || t == END || t == REPLACE_ALL || t == WRITE_END
    ensures TrimSpace(t) == t && Trim(t, IsBacktick) == t
  {
    TrimmedUnchanged(t, IsSpace);
    TrimmedUnchanged(t, IsBacktick);
  }

  lemma {:induction false} DividerMarks(t: string)
    requires t == DIVIDER
    ensures MarkOf(t) == DividerMark
  {
    assert t[0] == '=';
  }

  lemma {:induction false} EndMarks(t: string)
    requires t == END
    ensures MarkOf(t) == EndMark
  {
    assert t[0] == '>';
  }

  lemma {:induction false} AllMarks(t: string)
    requires t == REPLACE_ALL
    ensures MarkOf(t) == AllMark
  {
    assert t[0] == 'R';
  }

  lemma {:induction false} MarkerViews(cfg: Config)
    ensures ViewOf(cfg, SEARCH).mark == SearchMark
    ensures ViewOf(cfg, DIVIDER).mark == DividerMark
    ensures ViewOf(cfg, END).mark == EndMark
    ensures ViewOf(cfg, REPLACE_ALL).mark == AllMark
  {
    SpaceFree(SEARCH);
    SpaceFree(DIVIDER);
    SpaceFree(END);
    SpaceFree(REPLACE_ALL);
    DividerMarks(DIVIDER);
    EndMarks(END);
    AllMarks(REPLACE_ALL);
  }

  lemma {:induction false} WriteEndView(cfg: Config, t: string)
    requires t == WRITE_END
    ensures ViewOf(cfg, t).writeEnd && ViewOf(cfg, t).dashTail
  {
    SpaceFree(t);
  }

  /** A path that its own header line brings back. */
  predicate StablePath(cfg: Config, p: string) {
    && p != "" && Trimmed(p, IsSpace) && Trimmed(p, IsBacktick)
    && Before(p, "<<<<<<<") == p
    && cfg.path(p) == p && cfg.path(" " + p) == p && cfg.valid(p)
  }

  lemma {:induction false} HeaderText(cfg: Config, key: string, p: string)
    requires StablePath(cfg, p) && (key == "READ: " || key == "EDIT: " || key == "WRITE: ")
    ensures Unquoted(key + p) == key + p && HasPrefix(ToUpper(key + p), key)
  {
    var line := key + p;
    assert line[|line| - 1] == p[|p| - 1];
    TrimmedUnchanged(line, IsSpace);
    TrimmedUnchanged(line, IsBacktick);
  }

  lemma {:induction false} ReadHeader(cfg: Config, p: string)
    requires StablePath(cfg, p)
    ensures ViewOf(cfg, "READ: " + p).head == Read(p)
  {
    HeaderText(cfg, "READ: ", p);
    var line := "READ: " + p;
    assert line[5..] == " " + p;
    assert HasPrefix(ToUpper(line), "READ:");
  }

  lemma {:induction false} EditHeader(cfg: Config, p: string)
    requires StablePath(cfg, p)
    ensures ViewOf(cfg, "EDIT: " + p).head == Edit(p, false)
  {
    HeaderText(cfg, "EDIT: ", p);
    var line := "EDIT: " + p;
    assert line[5..] == " " + p;
    TrimLeftSkips(" ", p, IsSpace);
    TrimmedUnchanged(p, IsSpace);
    assert TrimSpace(" " + p) == p;
    assert HasPrefix(ToUpper(line), "EDIT:") && ToUpper(line)[0] == 'E';
  }

  lemma {:induction false} WriteHeader(cfg: Config, p: string)
    requires StablePath(cfg, p)
    ensures ViewOf(cfg, "WRITE: " + p).head == Write(p, false)
  {
    HeaderText(cfg, "WRITE: ", p);
    WriteHead(cfg, "WRITE: " + p, p);
  }

  lemma {:induction false} WriteHead(cfg: Config, line: string, p: string)
    requires StablePath(cfg, p) && line == "WRITE: " + p && Unquoted(line) == line
    requires HasPrefix(ToUpper(line), "WRITE: ")
    ensures HeadOf(cfg, line) == Write(p, false)
  {
    assert line[6..] == " " + p;
    var u := ToUpper(line);
    assert u[0] == 'W' && "WRITE:" <= "WRITE: ";
  }
}
