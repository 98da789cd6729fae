/**
 * `parseComment` of the JSDoc parser: a comment is cut into lines, each line
 * either starts a new `@command` record or continues the body of the current
 * one, and the records are then post-processed and grouped by name.
 *
 * The regular-expression pre-pass that rewrites `@code@` sections and leading
 * `*` characters is taken as already applied to the comment. The markdown
 * converter is the parameter `makeHtml`; `None` stands for a conversion that
 * throws.
 */
module JsDoc {
  import opened Wrappers
  import opened Strings

  /** One record: `{ name, body }`. */
  datatype Cmd = Cmd(name: string, body: string)

  const Description: string := "@description"

  /** `[a-zA-Z0-9_]`. */
  predicate IsWordChar(c: char) {
    ('a' <= c <= 'z') || ('A' <= c <= 'Z') || ('0' <= c <= '9') || c == '_'
  }

  // ------------------------------------------------------ trailing comments

  /**
   * The pattern `(^.*)([^:]\/\/.*)$` matches with group 1 of length `k`:
   * a character other than ':' at `k`, then "//", and no line terminator in
   * the two `.*` parts (the character at `k` may be anything but ':').
   */
  predicate CommentAt(line: string, k: nat) {
    && k + 3 <= |line|
    && line[k] != ':'
    && line[k + 1] == '/' && line[k + 2] == '/'
    && NoLineTerminator(line[..k])
    && NoLineTerminator(line[k + 3..])
  }

  /** The largest `k < n` at which the comment pattern matches; greedy `(^.*)` picks it. */
  function LastCommentBefore(line: string, n: nat): (r: Option<nat>)
    requires n <= |line|
    ensures r.Some? ==> r.value < n && CommentAt(line, r.value)
    ensures r.Some? ==> forall k :: r.value < k < n ==> !CommentAt(line, k)
    ensures r.None? ==> forall k :: 0 <= k < n ==> !CommentAt(line, k)
  {
    if n == 0 then None
    else if CommentAt(line, n - 1) then Some(n - 1)
    else LastCommentBefore(line, n - 1)
  }

  /** Removes a trailing `//` comment, keeping `://` as in URLs, and trims what is left on the right. */
  function StripComment(line: string): (r: string)
    ensures |r| <= |line| && r == line[..|r|]
    ensures LastCommentBefore(line, |line|).Some? ==> r == TrimRight(line[..LastCommentBefore(line, |line|).value])
    ensures LastCommentBefore(line, |line|).None? ==> r == line
  {
    match LastCommentBefore(line, |line|)
    case Some(k) => TrimRight(line[..k])
    case None => line
  }

  // ------------------------------------------------------------- commands

  /** End of the run of word characters starting at `i`. */
  function WordEnd(s: string, i: nat): (j: nat)
    requires i <= |s|
    ensures i <= j <= |s|
    ensures forall k :: i <= k < j ==> IsWordChar(s[k])
    ensures j < |s| ==> !IsWordChar(s[j])
    decreases |s| - i
  {
    if i < |s| && IsWordChar(s[i]) then WordEnd(s, i + 1) else i
  }

  /**
   * The pattern `^\s*(\@[a-zA-Z0-9_]+)(.*)$`: leading whitespace, "@", a
   * maximal run of word characters, then a rest without line terminators.
   * Group 1 becomes the name and group 2 the body.
   */
  function CommandMatch(line: string): (r: Option<Cmd>)
    ensures r.Some? ==> WellSplit(TrimLeft(line), r.value)
  {
    var t := TrimLeft(line);
    if |t| >= 2 && t[0] == '@' && IsWordChar(t[1]) then
      var e := WordEnd(t, 1);
      if NoLineTerminator(t[e..]) then
        CommandParts(t, e);
        Some(Cmd(t[..e], t[e..]))
      else None
    else None
  }

  /** `t` is "@", a maximal run of word characters (the name) and then the body, without line terminators. */
  predicate WellSplit(t: string, c: Cmd) {
    && |c.name| >= 2 && c.name[0] == '@'
    && (forall k :: 1 <= k < |c.name| ==> IsWordChar(c.name[k]))
    && (|c.body| > 0 ==> !IsWordChar(c.body[0]))
    && NoLineTerminator(c.body)
    && t == c.name + c.body
  }

  lemma CommandParts(t: string, e: nat)
    requires |t| >= 2 && t[0] == '@' && 2 <= e <= |t|
    requires forall k :: 1 <= k < e ==> IsWordChar(t[k])
    requires e < |t| ==> !IsWordChar(t[e])
    requires NoLineTerminator(t[e..])
    ensures WellSplit(t, Cmd(t[..e], t[e..]))
  {
    assert t == t[..e] + t[e..];
  }

  /** `@returns` becomes `@return` and `@throw` becomes `@throws`. */
  function Normalize(name: string): (r: string)
    ensures r != "@returns" && r != "@throw"
    ensures name != "@returns" && name != "@throw" ==> r == name
  {
    if name == "@returns" then "@return"
    else if name == "@throw" then "@throws"
    else name
  }

  // ------------------------------------------------------------ line loop

  /** A name a record can carry: "@" and at least one more character, never a raw alias. */
  predicate GoodName(n: string) {
    |n| >= 2 && n[0] == '@' && n != "@returns" && n != "@throw"
  }

  /** Appends a continuation line to the current (last) record, with "\n" only after a non-empty body. */
  function AppendToLast(cmds: seq<Cmd>, text: string): (r: seq<Cmd>)
    requires |cmds| >= 1
    ensures |r| == |cmds| && r[..|cmds| - 1] == cmds[..|cmds| - 1]
    ensures r[|r| - 1].name == cmds[|cmds| - 1].name
    ensures var last := cmds[|cmds| - 1].body;
            r[|r| - 1].body == if |last| > 0 then last + "\n" + text else text
  {
    var current := cmds[|cmds| - 1];
    var body := if |current.body| > 0 then current.body + "\n" + text else current.body + text;
    cmds[..|cmds| - 1] + [current.(body := body)]
  }

  /** What a line of the comment is, once trimmed on the right and stripped of a trailing comment. */
  datatype Line = Blank | Command(cmd: Cmd) | Text(text: string)

  /** Classifies one line: blank lines are skipped, command lines open a record, the rest is body text. */
  function Classify(raw: string): (k: Line)
    ensures k.Blank? <==> TrimRight(raw) == ""
    ensures k.Command? ==> GoodName(k.cmd.name)
  {
    var line := TrimRight(raw);
    if line == "" then Blank
    else
      var text := StripComment(line);
      match CommandMatch(text)
      case Some(c) => Command(Cmd(Normalize(c.name), c.body))
      case None => Text(text)
  }

  /** What one line does to the list of records; `cmds` ends with the current record. */
  function Step(cmds: seq<Cmd>, k: Line): (r: seq<Cmd>)
    requires |cmds| >= 1
    ensures |r| == |cmds| || |r| == |cmds| + 1
    ensures r[..|cmds| - 1] == cmds[..|cmds| - 1] && r[0].name == cmds[0].name
    ensures k.Blank? ==> r == cmds
    ensures k.Command? ==> r == cmds + [k.cmd]
    ensures k.Text? ==> r == AppendToLast(cmds, k.text)
  {
    match k
    case Blank => cmds
    case Command(c) => cmds + [c]
    case Text(text) => AppendToLast(cmds, text)
  }

  /** The records after the first `|lines|` lines, starting from the empty description record. */
  function Scan(lines: seq<string>): (r: seq<Cmd>)
    ensures |r| >= 1 && r[0].name == Description
  {
    if lines == [] then [Cmd(Description, "")]
    else Step(Scan(lines[..|lines| - 1]), Classify(lines[|lines| - 1]))
  }

  // ------------------------------------------------------ body post-processing

  /** End of the run of whitespace starting at `i`: where a greedy `\s*` stops. */
  function WsEnd(b: string, i: nat): (j: nat)
    requires i <= |b|
    ensures i <= j <= |b|
    ensures forall k :: i <= k < j ==> IsWhitespace(b[k])
    ensures j < |b| ==> !IsWhitespace(b[j])
    decreases |b| - i
  {
    if i < |b| && IsWhitespace(b[i]) then WsEnd(b, i + 1) else i
  }

  /** `^` under the `m` flag: the start of the input or just after a line terminator. */
  predicate LineStart(b: string, i: nat) {
    i == 0 || (0 < i <= |b| && IsLineTerminator(b[i - 1]))
  }

  /** `\s*$` under the `m` flag matches from `k`: whitespace up to the end or up to a line terminator. */
  predicate DollarAt(b: string, k: nat)
    requires k <= |b|
    decreases |b| - k
  {
    k == |b| || IsLineTerminator(b[k]) || (IsWhitespace(b[k]) && DollarAt(b, k + 1))
  }

  /** A ")" that `\)\s*$` accepts. */
  predicate CloseAt(b: string, q: nat) {
    q < |b| && b[q] == ')' && DollarAt(b, q + 1)
  }

  /** A start position where `^\s*\(` matches. */
  predicate OpenAt(b: string, i: nat) {
    i <= |b| && LineStart(b, i) && WsEnd(b, i) < |b| && b[WsEnd(b, i)] == '('
  }

  /** The last acceptable ")" before `n`: greedy `[\s\S]*` backs off from the right. */
  function LastClose(b: string, n: nat): (r: Option<nat>)
    requires n <= |b|
    ensures r.Some? ==> r.value < n && CloseAt(b, r.value)
    ensures r.Some? ==> forall q :: r.value < q < n ==> !CloseAt(b, q)
    ensures r.None? ==> forall q :: 0 <= q < n ==> !CloseAt(b, q)
  {
    if n == 0 then None
    else if CloseAt(b, n - 1) then Some(n - 1)
    else LastClose(b, n - 1)
  }

  /** The leftmost start position from `i` on whose "(" lies before `q`. */
  function FirstOpen(b: string, i: nat, q: nat): (r: Option<nat>)
    requires i <= |b|
    ensures r.Some? ==> i <= r.value && OpenAt(b, r.value) && WsEnd(b, r.value) < q
    ensures r.Some? ==> forall j :: i <= j < r.value ==> !(OpenAt(b, j) && WsEnd(b, j) < q)
    ensures r.None? ==> forall j :: i <= j <= |b| ==> !(OpenAt(b, j) && WsEnd(b, j) < q)
    decreases |b| - i
  {
    if OpenAt(b, i) && WsEnd(b, i) < q then Some(i)
    else if i == |b| then None
    else FirstOpen(b, i + 1, q)
  }

  /**
   * Group 1 of `/^\s*\(([\s\S]*)\)\s*$/m` as the positions of its "(" and ")":
   * the leftmost match, and within it the last acceptable ")".
   */
  function ParenSpan(b: string): (r: Option<(nat, nat)>)
    ensures r.Some? ==> r.value.0 < r.value.1 < |b| && b[r.value.0] == '(' && b[r.value.1] == ')'
  {
    match LastClose(b, |b|)
    case None => None
    case Some(q) =>
      match FirstOpen(b, 0, q)
      case None => None
      case Some(i) => Some((WsEnd(b, i), q))
  }

  /** `m ? m[1] : body`. */
  function StripParens(body: string): string
  {
    match ParenSpan(body)
    case Some((p, q)) => body[p + 1..q]
    case None => body
  }

  /** No whitespace at either end. */
  predicate Trimmed(s: string) {
    |s| > 0 ==> !IsWhitespace(s[0]) && !IsWhitespace(s[|s| - 1])
  }

  /** Description bodies go through the markdown converter (kept when it throws); other bodies lose enclosing parentheses and are trimmed. */
  function Finalize(c: Cmd, makeHtml: string -> Option<string>): (r: Cmd)
    ensures r.name == c.name
    ensures c.name == Description ==> r.body == (if makeHtml(c.body).Some? then makeHtml(c.body).value else c.body)
    ensures c.name != Description ==> r.body == Trim(StripParens(c.body))
  {
    if c.name == Description then
      match makeHtml(c.body)
      case Some(html) => c.(body := html)
      case None => c
    else
      c.(body := Trim(StripParens(c.body)))
  }

  function FinalizeAll(cmds: seq<Cmd>, makeHtml: string -> Option<string>): (r: seq<Cmd>)
    ensures |r| == |cmds|
    ensures forall i :: 0 <= i < |cmds| ==> r[i] == Finalize(cmds[i], makeHtml)
  {
    if cmds == [] then [] else FinalizeAll(cmds[..|cmds| - 1], makeHtml) + [Finalize(cmds[|cmds| - 1], makeHtml)]
  }

  // ------------------------------------------------------------- grouping

  /** Files one record: `result[name]` is pushed to, or created as `[cmd]`. */
  function File(g: map<string, seq<Cmd>>, c: Cmd): (r: map<string, seq<Cmd>>)
    ensures r.Keys == g.Keys + {c.name}
    ensures r[c.name] == (if c.name in g then g[c.name] else []) + [c]
    ensures forall n :: n in g && n != c.name ==> r[n] == g[n]
  {
    if c.name in g then g[c.name := g[c.name] + [c]] else g[c.name := [c]]
  }

  /** Files the records one by one, in order. */
  function Group(cmds: seq<Cmd>): map<string, seq<Cmd>>
  {
    if cmds == [] then map[] else File(Group(cmds[..|cmds| - 1]), cmds[|cmds| - 1])
  }

  /** The records carrying `name`, in order. */
  function Filter(cmds: seq<Cmd>, name: string): seq<Cmd>
  {
    if cmds == [] then []
    else Filter(cmds[..|cmds| - 1], name) + (if cmds[|cmds| - 1].name == name then [cmds[|cmds| - 1]] else [])
  }

  /** The whole of `parseComment`. */
  function Parse(comment: string, makeHtml: string -> Option<string>): map<string, seq<Cmd>>
  {
    Group(FinalizeAll(Scan(Split(comment, '\n')), makeHtml))
  }

  // ------------------------------------------------------------ the method

  method ParseComment(comment: string, makeHtml: string -> Option<string>) returns (result: map<string, seq<Cmd>>)
    ensures result == Parse(comment, makeHtml)
  {
    var lines := Split(comment, '\n');
    var cmds := [Cmd(Description, "")];
    var i := 0;
    while i < |lines|
      invariant 0 <= i <= |lines|
      invariant cmds == Scan(lines[..i])
    {
      ScanNext(lines, i);
      cmds := ParseLine(cmds, lines[i]);
      i := i + 1;
    }
    assert lines[..i] == lines;
    result := map[];
    var j := 0;
    while j < |cmds|
      invariant 0 <= j <= |cmds|
      invariant result == Group(FinalizeAll(cmds[..j], makeHtml))
    {
      GroupNext(cmds, j, makeHtml);
      var cmd := FinishRecord(cmds[j], makeHtml);
      if cmd.name in result {
        result := result[cmd.name := result[cmd.name] + [cmd]];
      } else {
        result := result[cmd.name := [cmd]];
      }
      j := j + 1;
    }
    assert cmds[..j] == cmds;
  }

  /** The body of the loop over lines: `cmds` ends with `current`, whose body a continuation line extends. */
  method ParseLine(cmds: seq<Cmd>, raw: string) returns (next: seq<Cmd>)
    requires |cmds| >= 1
    ensures next == Step(cmds, Classify(raw))
  {
    next := cmds;
    var line := TrimRight(raw);
    if line == "" {
      return;
    }
    line := StripComment(line);
    var m := CommandMatch(line);
    if m.None? {
      var current := cmds[|cmds| - 1];
      if |current.body| > 0 {
        current := current.(body := current.body + "\n");
      }
      current := current.(body := current.body + line);
      next := cmds[..|cmds| - 1] + [current];
      return;
    }
    var name := m.value.name;
    if name == "@returns" {
      name := "@return";
    }
    if name == "@throw" {
      name := "@throws";
    }
    next := cmds + [Cmd(name, m.value.body)];
  }

  /** The body of the loop over records, before the record is filed under its name. */
  method FinishRecord(cmd: Cmd, makeHtml: string -> Option<string>) returns (r: Cmd)
    ensures r == Finalize(cmd, makeHtml)
  {
    r := cmd;
    if cmd.name == Description {
      var html := makeHtml(cmd.body);
      if html.Some? {
        r := r.(body := html.value);
      }
    } else {
      var body := StripParens(r.body);
      r := r.(body := Trim(body));
    }
  }

  // --------------------------------------------------------------- lemmas

  lemma ScanNext(lines: seq<string>, i: nat)
    requires i < |lines|
    ensures Scan(lines[..i + 1]) == Step(Scan(lines[..i]), Classify(lines[i]))
  {
    assert lines[..i + 1][..i] == lines[..i];
  }

  lemma GroupNext(cmds: seq<Cmd>, j: nat, makeHtml: string -> Option<string>)
    requires j < |cmds|
    ensures Group(FinalizeAll(cmds[..j + 1], makeHtml))
            == File(Group(FinalizeAll(cmds[..j], makeHtml)), Finalize(cmds[j], makeHtml))
  {
    assert cmds[..j + 1][..j] == cmds[..j];
    var f := FinalizeAll(cmds[..j + 1], makeHtml);
    assert f[..j] == FinalizeAll(cmds[..j], makeHtml);
  }

  /** `trim` leaves no whitespace at either end. */
  lemma TrimIsTrimmed(s: string)
    ensures Trimmed(Trim(s))
  {
    var t := TrimRight(s);
    var r := TrimLeft(t);
    if |r| > 0 {
      assert r[|r| - 1] == t[|t| - 1];
    }
  }

  /** Groups are exactly the records of each name in order of appearance; a name is a key iff some record carries it. */
  lemma {:induction false} GroupIsFilter(cmds: seq<Cmd>, name: string)
    ensures name in Group(cmds) <==> Filter(cmds, name) != []
    ensures name in Group(cmds) ==> Group(cmds)[name] == Filter(cmds, name)
  {
    if cmds != [] {
      GroupIsFilter(cmds[..|cmds| - 1], name);
    }
  }

  /** Filter finds a record of the name iff one exists. */
  lemma {:induction false} FilterNonEmpty(cmds: seq<Cmd>, name: string)
    ensures Filter(cmds, name) != [] <==> exists i :: 0 <= i < |cmds| && cmds[i].name == name
  {
    if cmds != [] {
      var init := cmds[..|cmds| - 1];
      FilterNonEmpty(init, name);
      if Filter(init, name) != [] {
        var i :| 0 <= i < |init| && init[i].name == name;
        assert cmds[i].name == name;
      }
      if exists i :: 0 <= i < |cmds| && cmds[i].name == name {
        var i :| 0 <= i < |cmds| && cmds[i].name == name;
        if i < |init| {
          assert init[i].name == name;
        }
      }
    }
  }

  /** The result always has an "@description" group, and it starts with the initial description record. */
  lemma DescriptionFirst(comment: string, makeHtml: string -> Option<string>)
    ensures Description in Parse(comment, makeHtml)
    ensures |Parse(comment, makeHtml)[Description]| >= 1
    ensures Parse(comment, makeHtml)[Description][0] == Finalize(Scan(Split(comment, '\n'))[0], makeHtml)
  {
    var cmds := FinalizeAll(Scan(Split(comment, '\n')), makeHtml);
    GroupStartsWithFirst(cmds);
  }

  /** Grouping puts the first record at the head of its own group. */
  lemma GroupStartsWithFirst(cmds: seq<Cmd>)
    requires |cmds| >= 1
    ensures cmds[0].name in Group(cmds)
    ensures |Group(cmds)[cmds[0].name]| >= 1 && Group(cmds)[cmds[0].name][0] == cmds[0]
  {
    GroupIsFilter(cmds, cmds[0].name);
    FilterStartsWithFirst(cmds);
  }

  lemma {:induction false} FilterStartsWithFirst(cmds: seq<Cmd>)
    requires |cmds| >= 1
    ensures Filter(cmds, cmds[0].name) != [] && Filter(cmds, cmds[0].name)[0] == cmds[0]
  {
    if |cmds| > 1 {
      var init := cmds[..|cmds| - 1];
      FilterStartsWithFirst(init);
    }
  }

  /** Every record name starts with "@" and is never `@returns` or `@throw`. */
  lemma {:induction false} ScanNames(lines: seq<string>)
    ensures forall i :: 0 <= i < |Scan(lines)| ==> GoodName(Scan(lines)[i].name)
  {
    if lines != [] {
      ScanNames(lines[..|lines| - 1]);
      StepNames(Scan(lines[..|lines| - 1]), Classify(lines[|lines| - 1]));
    }
  }

  lemma StepNames(cmds: seq<Cmd>, k: Line)
    requires |cmds| >= 1
    requires forall i :: 0 <= i < |cmds| ==> GoodName(cmds[i].name)
    requires k.Command? ==> GoodName(k.cmd.name)
    ensures forall i :: 0 <= i < |Step(cmds, k)| ==> GoodName(Step(cmds, k)[i].name)
  {
    if k.Text? {
      var r := AppendToLast(cmds, k.text);
      assert forall i :: 0 <= i < |cmds| - 1 ==> r[i] == cmds[i];
    }
  }

  /** The result's keys are record names: "@returns" and "@throw" never appear. */
  lemma NoRawAliases(comment: string, makeHtml: string -> Option<string>)
    ensures "@returns" !in Parse(comment, makeHtml)
    ensures "@throw" !in Parse(comment, makeHtml)
  {
    var scan := Scan(Split(comment, '\n'));
    var f := FinalizeAll(scan, makeHtml);
    ScanNames(Split(comment, '\n'));
    FinalizeAllNames(scan, makeHtml);
    GoodNamesNoAliases(f);
  }

  /** Records with good names leave "@returns" and "@throw" out of the groups. */
  lemma GoodNamesNoAliases(cmds: seq<Cmd>)
    requires forall i :: 0 <= i < |cmds| ==> GoodName(cmds[i].name)
    ensures "@returns" !in Group(cmds) && "@throw" !in Group(cmds)
  {
    GroupKeys(cmds, "@returns");
    GroupKeys(cmds, "@throw");
  }

  lemma FinalizeAllNames(cmds: seq<Cmd>, makeHtml: string -> Option<string>)
    requires forall i :: 0 <= i < |cmds| ==> GoodName(cmds[i].name)
    ensures forall i :: 0 <= i < |cmds| ==> GoodName(FinalizeAll(cmds, makeHtml)[i].name)
  {
  }

  /** A name no record carries is not a key. */
  lemma GroupKeys(cmds: seq<Cmd>, name: string)
    requires forall i :: 0 <= i < |cmds| ==> cmds[i].name != name
    ensures name !in Group(cmds)
  {
    GroupIsFilter(cmds, name);
    FilterNonEmpty(cmds, name);
  }

  /** The text of each continuation line, in order. */
  function Texts(lines: seq<string>): seq<string>
  {
    if lines == [] then []
    else Texts(lines[..|lines| - 1])
         + (match Classify(lines[|lines| - 1]) case Text(t) => [t] case _ => [])
  }

  /** A line that only continues the body: blank, or text that comment stripping did not reduce to nothing. */
  predicate Continues(k: Line) {
    k.Blank? || (k.Text? && k.text != "")
  }

  /** Without command lines, the description body is the continuation lines joined with "\n". */
  lemma {:induction false} ContinuationBody(lines: seq<string>)
    requires forall i :: 0 <= i < |lines| ==> Continues(Classify(lines[i]))
    ensures Scan(lines) == [Cmd(Description, Join(Texts(lines), '\n'))]
    ensures forall t :: t in Texts(lines) ==> t != ""
  {
    if lines != [] {
      var init := lines[..|lines| - 1];
      var k := Classify(lines[|lines| - 1]);
      assert forall i :: 0 <= i < |init| ==> init[i] == lines[i];
      ContinuationBody(init);
      ContinuationStep(Texts(init), k);
    }
  }

  lemma ContinuationStep(texts: seq<string>, k: Line)
    requires Continues(k)
    requires forall t :: t in texts ==> t != ""
    ensures var extra := match k case Text(t) => [t] case _ => [];
            && Step([Cmd(Description, Join(texts, '\n'))], k) == [Cmd(Description, Join(texts + extra, '\n'))]
            && forall t :: t in texts + extra ==> t != ""
  {
    if k.Text? {
      JoinNonEmpty(texts);
      if texts == [] {
        assert [] + [k.text] == [k.text];
        assert "" + k.text == k.text;
      } else {
        assert (texts + [k.text])[..|texts|] == texts;
      }
    } else {
      assert texts + [] == texts;
    }
  }

  /** Joining non-empty pieces gives a non-empty string exactly when there is a piece. */
  lemma {:induction false} JoinNonEmpty(parts: seq<string>)
    requires forall t :: t in parts ==> t != ""
    ensures |Join(parts, '\n')| > 0 <==> parts != []
  {
    if |parts| == 1 {
      assert parts[0] in parts;
    } else if |parts| > 1 {
      var init := parts[..|parts| - 1];
      assert forall t :: t in init ==> t in parts;
      assert parts[|parts| - 1] in parts;
      JoinNonEmpty(init);
    }
  }

  /** Every body except a description's ends up without whitespace at either end. */
  lemma FinalizeTrimmed(c: Cmd, makeHtml: string -> Option<string>)
    requires c.name != Description
    ensures Trimmed(Finalize(c, makeHtml).body)
  {
    TrimIsTrimmed(StripParens(c.body));
  }

  /**
   * A body wrapped in parentheses loses them, and is trimmed, whatever
   * whitespace surrounds them: the body " (x)" of the line "@cmd (x)" included.
   */
  lemma ParensStripped(name: string, w1: string, x: string, w2: string, makeHtml: string -> Option<string>)
    requires name != Description
    requires forall k :: 0 <= k < |w1| ==> IsWhitespace(w1[k])
    requires forall k :: 0 <= k < |w2| ==> IsWhitespace(w2[k])
    ensures Finalize(Cmd(name, w1 + "(" + x + ")" + w2), makeHtml).body == Trim(x)
  {
    var b := w1 + "(" + x + ")" + w2;
    var p, q := |w1|, |w1| + 1 + |x|;
    assert forall k :: 0 <= k < p ==> b[k] == w1[k];
    assert forall k :: q < k < |b| ==> b[k] == w2[k - q - 1];
    ParenSpanOf(b, p, q);
    assert b[p + 1..q] == x;
  }

  /** A body of whitespace, "(", anything, ")" and whitespace matches at its outer parentheses. */
  lemma ParenSpanOf(b: string, p: nat, q: nat)
    requires p < q < |b| && b[p] == '(' && b[q] == ')'
    requires forall k :: 0 <= k < p ==> IsWhitespace(b[k])
    requires forall k :: q < k < |b| ==> IsWhitespace(b[k])
    ensures ParenSpan(b) == Some((p, q))
  {
    DollarTail(b, q + 1);
    assert CloseAt(b, q);
    assert LastClose(b, |b|) == Some(q);
    assert WsEnd(b, 0) == p;
    assert OpenAt(b, 0);
  }

  /** `\s*$` matches from `k` when nothing but whitespace follows. */
  lemma {:induction false} DollarTail(b: string, k: nat)
    requires k <= |b|
    requires forall j :: k <= j < |b| ==> IsWhitespace(b[j])
    ensures DollarAt(b, k)
    decreases |b| - k
  {
    if k < |b| {
      DollarTail(b, k + 1);
    }
  }

  /** A body without "(" is only trimmed. */
  lemma NoParensTrimmed(name: string, body: string, makeHtml: string -> Option<string>)
    requires name != Description && '(' !in body
    ensures Finalize(Cmd(name, body), makeHtml).body == Trim(body)
  {
    assert ParenSpan(body).None?;
  }

  /** When every "//" follows a ':' (as in URLs) or opens the line, nothing is stripped. */
  lemma UrlKept(line: string)
    requires forall k :: 0 <= k && k + 3 <= |line| && line[k + 1] == '/' && line[k + 2] == '/' ==> line[k] == ':'
    ensures StripComment(line) == line
  {
  }

  /** A command line, split as the pattern splits it, yields exactly that name and body. */
  lemma CommandMatchComplete(w: string, word: string, rest: string)
    requires forall k :: 0 <= k < |w| ==> IsWhitespace(w[k])
    requires |word| >= 1 && forall k :: 0 <= k < |word| ==> IsWordChar(word[k])
    requires |rest| > 0 ==> !IsWordChar(rest[0])
    requires NoLineTerminator(rest)
    ensures CommandMatch(w + "@" + word + rest) == Some(Cmd("@" + word, rest))
  {
    var t := "@" + word + rest;
    assert w + "@" + word + rest == w + t;
    TrimLeftPrefix(w, t);
    CommandOfTrimmed(word, rest);
  }

  lemma CommandOfTrimmed(word: string, rest: string)
    requires |word| >= 1 && forall k :: 0 <= k < |word| ==> IsWordChar(word[k])
    requires |rest| > 0 ==> !IsWordChar(rest[0])
    ensures var t := "@" + word + rest;
            && |t| >= 2 && t[0] == '@' && IsWordChar(t[1])
            && WordEnd(t, 1) == |word| + 1
            && t[..|word| + 1] == "@" + word && t[|word| + 1..] == rest
  {
    var t := "@" + word + rest;
    assert forall k :: 1 <= k < |word| + 1 ==> t[k] == word[k - 1];
    assert |word| + 1 < |t| ==> t[|word| + 1] == rest[0];
    WordEndOf(t, 1, |word| + 1);
    assert t[..|word| + 1] == "@" + word;
    assert t[|word| + 1..] == rest;
  }

  lemma {:induction false} TrimLeftPrefix(w: string, t: string)
    requires forall k :: 0 <= k < |w| ==> IsWhitespace(w[k])
    requires |t| > 0 && !IsWhitespace(t[0])
    ensures TrimLeft(w + t) == t
  {
    if w != [] {
      assert (w + t)[1..] == w[1..] + t;
      TrimLeftPrefix(w[1..], t);
    }
  }

  lemma {:induction false} WordEndOf(t: string, i: nat, e: nat)
    requires i <= e <= |t|
    requires forall k :: i <= k < e ==> IsWordChar(t[k])
    requires e < |t| ==> !IsWordChar(t[e])
    ensures WordEnd(t, i) == e
    decreases e - i
  {
    if i < e {
      WordEndOf(t, i + 1, e);
    }
  }
}
