/** The text side of migrations (src/db/migration-runner.ts:8-9): transaction markers and checksums. */
module MigrationSql {

  datatype Result<T> = Ok(value: T) | Error(message: string)

  /** JavaScript's white space and line terminators. */
  predicate IsSpace(c: char) {
    || c in {'\t', '\n', '\U{0b}', '\U{0c}', '\r', ' ', '\U{a0}', '\U{1680}', '\U{2028}', '\U{2029}', '\U{202f}', '\U{205f}', '\U{3000}', '\U{feff}'}
    || '\U{2000}' <= c <= '\U{200a}'
  }

  predicate AllSpace(s: string) { forall c :: c in s ==> IsSpace(c) }

  function TrimStart(s: string): (t: string)
    ensures t == [] || !IsSpace(t[0])
  {
    if s != [] && IsSpace(s[0]) then TrimStart(s[1..]) else s
  }

  function TrimEnd(s: string): (t: string)
    ensures t <= s && (t == [] || !IsSpace(t[|t| - 1]))
  {
    if s != [] && IsSpace(s[|s| - 1]) then TrimEnd(s[..|s| - 1]) else s
  }

  function Trim(s: string): string { TrimEnd(TrimStart(s)) }

  function Upper(c: char): char { if 'a' <= c <= 'z' then ((c as int) - 32) as char else c }

  /** s is `word`, ignoring the case of ASCII letters. */
  predicate Reads(s: string, word: string) {
    |s| == |word| && forall i :: 0 <= i < |s| ==> Upper(s[i]) == word[i]
  }

  /** What follows BEGIN, white space and a semicolon at the start; nothing when s does not start so. */
  function AfterBegin(s: string): Result<string> {
    if |s| >= 5 && Reads(s[..5], "BEGIN") then
      var rest := TrimStart(s[5..]);
      if rest != [] && rest[0] == ';' then Ok(rest[1..]) else Error("")
    else Error("")
  }

  /** What precedes COMMIT, white space, a semicolon and white space at the end. */
  function BeforeCommit(s: string): Result<string> {
    var t := TrimEnd(s);
    if t != [] && t[|t| - 1] == ';' then
      var u := TrimEnd(t[..|t| - 1]);
      if |u| >= 6 && Reads(u[|u| - 6..], "COMMIT") then Ok(u[..|u| - 6]) else Error("")
    else Error("")
  }

  function TransactionalSql(source: string): Result<string> {
    var trimmed := Trim(source);
    var start := AfterBegin(trimmed);
    if start.Ok? != BeforeCommit(trimmed).Ok? then Error("Migration must contain both BEGIN and COMMIT or neither")
    else if start.Error? then Ok(trimmed)
    else
      var end := BeforeCommit(start.value);
      Ok(Trim(if end.Ok? then end.value else start.value))
  }

  // ---- markers are removed, whatever the white space ----

  lemma {:induction false} TrimStartSkips(gap: string, s: string)
    requires AllSpace(gap) && s != [] && !IsSpace(s[0])
    ensures TrimStart(gap + s) == s
  {
    hide IsSpace;
    if gap == [] {
      assert gap + s == s;
    } else {
      assert (gap + s)[1..] == gap[1..] + s;
      TrimStartSkips(gap[1..], s);
    }
  }

  lemma {:induction false} TrimEndSkips(s: string, gap: string)
    requires AllSpace(gap) && s != [] && !IsSpace(s[|s| - 1])
    ensures TrimEnd(s + gap) == s
  {
    hide IsSpace;
    if gap == [] {
      assert s + gap == s;
    } else {
      var n := |gap| - 1;
      assert (s + gap)[..|s| + n] == s + gap[..n];
      TrimEndSkips(s, gap[..n]);
    }
  }

  lemma ReadsLetters(s: string, word: string)
    requires Reads(s, word) && |word| > 0 && forall c :: c in word ==> 'A' <= c <= 'Z'
    ensures !IsSpace(s[0]) && !IsSpace(s[|s| - 1])
  {
    assert word[0] in word && word[|word| - 1] in word;
    assert Upper(s[0]) == word[0] && Upper(s[|s| - 1]) == word[|word| - 1];
  }

  lemma BeginRead(begin: string, gap: string, rest: string)
    requires Reads(begin, "BEGIN") && AllSpace(gap)
    ensures AfterBegin(begin + gap + ";" + rest) == Ok(rest)
  {
    var s := begin + gap + ";" + rest;
    assert s[..5] == begin && s[5..] == gap + (";" + rest);
    TrimStartSkips(gap, ";" + rest);
  }

  lemma CommitRead(rest: string, commit: string, gap: string)
    requires Reads(commit, "COMMIT") && AllSpace(gap)
    ensures BeforeCommit(rest + commit + gap + ";") == Ok(rest)
  {
    ReadsLetters(commit, "COMMIT");
    TrimEndSkips(rest + commit + gap + ";", "");
    var s := rest + commit + gap + ";";
    assert s + "" == s && s[..|s| - 1] == (rest + commit) + gap;
    TrimEndSkips(rest + commit, gap);
    assert (rest + commit)[|rest|..] == commit && (rest + commit)[..|rest|] == rest;
    hide IsSpace;
  }

  /** A migration wrapped in BEGIN and COMMIT, in any case and with any white space, runs as its body. */
  lemma MarkersAreRemoved(lead: string, begin: string, gap: string, body: string, commit: string, gap2: string, trail: string)
    requires Reads(begin, "BEGIN") && Reads(commit, "COMMIT")
    requires AllSpace(lead) && AllSpace(gap) && AllSpace(gap2) && AllSpace(trail)
    ensures TransactionalSql(lead + (begin + gap + ";" + body + commit + gap2 + ";") + trail) == Ok(Trim(body))
  {
    var whole := begin + gap + ";" + body + commit + gap2 + ";";
    ReadsLetters(begin, "BEGIN");
    assert whole[0] == begin[0] && whole[|whole| - 1] == ';';
    assert lead + whole + trail == lead + (whole + trail);
    TrimStartSkips(lead, whole + trail);
    TrimEndSkips(whole, trail);
    BeginRead(begin, gap, body + commit + gap2 + ";");
    assert whole == begin + gap + ";" + (body + commit + gap2 + ";");
    CommitRead(begin + gap + ";" + body, commit, gap2);
    CommitRead(body, commit, gap2);
    hide IsSpace, Reads, AfterBegin, BeforeCommit;
  }

  // ---- what is sent to the server, for every text ----

  /** body, between blank margins and with none of its own. */
  predicate Margins(source: string, lead: string, body: string, trail: string) {
    && source == lead + body + trail && AllSpace(lead) && AllSpace(trail)
    && (body != [] ==> !IsSpace(body[0]) && !IsSpace(body[|body| - 1]))
  }

  ghost predicate IsBody(source: string, body: string) { exists lead, trail :: Margins(source, lead, body, trail) }

  predicate BeginMarker(text: string, begin: string, gap: string, rest: string) {
    text == begin + gap + ";" + rest && Reads(begin, "BEGIN") && AllSpace(gap)
  }

  predicate CommitMarker(text: string, rest: string, commit: string, gap: string, blank: string) {
    text == rest + (commit + gap + ";" + blank) && Reads(commit, "COMMIT") && AllSpace(gap) && AllSpace(blank)
  }

  ghost predicate Begins(text: string) { exists begin, gap, rest :: BeginMarker(text, begin, gap, rest) }

  ghost predicate Commits(text: string) { exists rest, commit, gap, blank :: CommitMarker(text, rest, commit, gap, blank) }

  /** text is a begin marker, inner, and a commit marker. */
  ghost predicate Wraps(text: string, inner: string) {
    exists begin, gap, rest, commit, gap2, blank ::
      BeginMarker(text, begin, gap, rest) && CommitMarker(rest, inner, commit, gap2, blank)
  }

  /** sql is the text of the file without its margins, and without its two markers if it has them. */
  ghost predicate RunsAs(source: string, sql: string) {
    exists body :: IsBody(source, body)
      && (|| (!Begins(body) && !Commits(body) && sql == body)
          || exists inner :: Wraps(body, inner) && IsBody(inner, sql))
  }

  lemma NoSpace()
    ensures AllSpace([])
  {
  }

  lemma SpaceInFront(c: char, s: string)
    requires IsSpace(c) && AllSpace(s)
    ensures AllSpace([c] + s)
  {
    hide IsSpace;
  }

  lemma Reassociate(a: string, b: string, c: string)
    ensures a + (b + c) == a + b + c
  {
  }

  lemma {:induction false} TrimStartSplits(s: string) returns (lead: string)
    ensures AllSpace(lead) && s == lead + TrimStart(s)
  {
    hide AllSpace, IsSpace;
    NoSpace();
    if s != [] && IsSpace(s[0]) {
      var more := TrimStartSplits(s[1..]);
      lead := [s[0]] + more;
      SpaceInFront(s[0], more);
      Reassociate([s[0]], more, TrimStart(s[1..]));
      assert s == [s[0]] + s[1..];
    } else {
      lead := [];
    }
  }

  lemma {:induction false} TrimEndSplits(s: string) returns (trail: string)
    ensures AllSpace(trail) && s == TrimEnd(s) + trail
  {
    hide IsSpace;
    if s != [] && IsSpace(s[|s| - 1]) {
      var n := |s| - 1;
      var more := TrimEndSplits(s[..n]);
      trail := more + [s[n]];
      assert s == s[..n] + [s[n]];
    } else {
      trail := [];
    }
  }

  lemma {:induction false} BlankTrims(s: string)
    requires AllSpace(s)
    ensures TrimStart(s) == [] && TrimEnd(s) == []
  {
    hide IsSpace;
    if s != [] {
      BlankTrims(s[1..]);
      BlankTrims(s[..|s| - 1]);
    }
  }

  /** A text that starts in a non-space is more than its blank end. */
  lemma StaysSome(t: string, body: string, trail: string)
    requires t == body + trail && AllSpace(trail) && t != [] && !IsSpace(t[0])
    ensures body != []
  {
    NotBlank(t);
    hide AllSpace;
    assert body == [] ==> t == trail;
  }

  lemma NotBlank(t: string)
    requires t != [] && !IsSpace(t[0])
    ensures !AllSpace(t)
  {
    assert t[0] in t;
  }

  lemma TrimHasMargins(source: string)
    ensures IsBody(source, Trim(source))
  {
    hide IsSpace;
    var lead := TrimStartSplits(source);
    var t := TrimStart(source);
    var trail := TrimEndSplits(t);
    var body := TrimEnd(t);
    if t != [] { StaysSome(t, body, trail); }
    assert source == lead + body + trail;
    assert Margins(source, lead, body, trail);
  }

  lemma MarginsTrim(source: string, lead: string, body: string, trail: string)
    requires Margins(source, lead, body, trail)
    ensures Trim(source) == body
  {
    hide IsSpace;
    if body == [] {
      assert source == lead + trail;
      BlankTrims(source);
    } else {
      assert source == lead + (body + trail);
      TrimStartSkips(lead, body + trail);
      TrimEndSkips(body, trail);
    }
  }

  lemma BodyIsTrim(source: string, body: string)
    ensures IsBody(source, body) <==> Trim(source) == body
  {
    TrimHasMargins(source);
    if lead, trail :| Margins(source, lead, body, trail) { MarginsTrim(source, lead, body, trail); }
    hide Trim, Margins;
  }

  lemma AfterBeginExactly(text: string, rest: string)
    ensures AfterBegin(text) == Ok(rest) <==> exists begin, gap :: BeginMarker(text, begin, gap, rest)
  {
    hide IsSpace, Reads;
    if AfterBegin(text) == Ok(rest) {
      var gap := TrimStartSplits(text[5..]);
      assert text == text[..5] + gap + ";" + rest;
      assert BeginMarker(text, text[..5], gap, rest);
    }
    if begin, gap :| BeginMarker(text, begin, gap, rest) { BeginRead(begin, gap, rest); }
  }

  lemma BeforeCommitExactly(text: string, rest: string)
    ensures BeforeCommit(text) == Ok(rest) <==> exists commit, gap, blank :: CommitMarker(text, rest, commit, gap, blank)
  {
    if BeforeCommit(text) == Ok(rest) { CommitSplits(text, rest); }
    if commit, gap, blank :| CommitMarker(text, rest, commit, gap, blank) { CommitReadBlank(text, rest, commit, gap, blank); }
    hide IsSpace, Reads, BeforeCommit;
  }

  lemma CommitSplits(text: string, rest: string)
    requires BeforeCommit(text) == Ok(rest)
    ensures exists commit, gap, blank :: CommitMarker(text, rest, commit, gap, blank)
  {
    hide IsSpace, Reads;
    var blank := TrimEndSplits(text);
    var t := TrimEnd(text);
    var gap := TrimEndSplits(t[..|t| - 1]);
    var u := TrimEnd(t[..|t| - 1]);
    var commit := u[|u| - 6..];
    Rejoined(text, t, blank, u, gap, rest, commit);
    hide TrimEnd, AllSpace;
    assert CommitMarker(text, rest, commit, gap, blank);
  }

  lemma Rejoined(text: string, t: string, blank: string, u: string, gap: string, rest: string, commit: string)
    requires text == t + blank && t != [] && t[|t| - 1] == ';' && t[..|t| - 1] == u + gap && u == rest + commit
    ensures text == rest + (commit + gap + ";" + blank)
  {
    assert t == t[..|t| - 1] + ";";
  }

  lemma CommitReadBlank(text: string, rest: string, commit: string, gap: string, blank: string)
    requires CommitMarker(text, rest, commit, gap, blank)
    ensures BeforeCommit(text) == Ok(rest)
  {
    var t := rest + commit + gap + ";";
    assert text == t + blank;
    TrimEndSkips(t, blank);
    CommitRead(rest, commit, gap);
    TrimEndSkips(t, "");
    assert t + "" == t;
    hide IsSpace, Reads;
  }

  /** No character of a begin marker can start a commit marker. */
  lemma NoCInBegin(text: string, begin: string, gap: string, after: string, k: nat)
    requires BeginMarker(text, begin, gap, after) && k <= |begin| + |gap|
    ensures Upper(text[k]) != 'C'
  {
    assert |text| == |begin| + |gap| + 1 + |after|;
    if k < |begin| {
      assert text[k] == begin[k] && Upper(begin[k]) == "BEGIN"[k];
    } else if k < |begin| + |gap| {
      assert text[k] == gap[k - |begin|] && gap[k - |begin|] in gap;
    } else {
      assert text[k] == ';';
    }
  }

  lemma CommitStartsWithC(text: string, rest: string, commit: string, gap: string, blank: string)
    requires CommitMarker(text, rest, commit, gap, blank)
    ensures |rest| < |text| && Upper(text[|rest|]) == 'C'
  {
    assert text[|rest|] == commit[0];
  }

  /** A begin marker ends before a commit marker starts. */
  lemma MarkersApart(text: string, begin: string, gap: string, after: string, rest: string, commit: string, gap2: string, blank: string)
    requires BeginMarker(text, begin, gap, after) && CommitMarker(text, rest, commit, gap2, blank)
    ensures |begin| + |gap| + 1 <= |rest|
  {
    CommitStartsWithC(text, rest, commit, gap2, blank);
    if |rest| <= |begin| + |gap| { NoCInBegin(text, begin, gap, after, |rest|); }
  }

  /** So a text with both markers is wrapped in them. */
  lemma BothWrap(text: string, begin: string, gap: string, after: string, rest: string, commit: string, gap2: string, blank: string)
    requires BeginMarker(text, begin, gap, after) && CommitMarker(text, rest, commit, gap2, blank)
    ensures |begin| + |gap| + 1 <= |rest| && CommitMarker(after, rest[|begin| + |gap| + 1..], commit, gap2, blank)
  {
    MarkersApart(text, begin, gap, after, rest, commit, gap2, blank);
    var n := |begin| + |gap| + 1;
    assert after == text[n..] && text[n..] == rest[n..] + (commit + gap2 + ";" + blank);
    hide IsSpace, Reads;
  }

  /** Both markers are found exactly when the text is wrapped, and what is left is the inside. */
  lemma WrapsExactly(text: string)
    ensures AfterBegin(text).Ok? && BeforeCommit(text).Ok? ==>
              BeforeCommit(AfterBegin(text).value).Ok? && Wraps(text, BeforeCommit(AfterBegin(text).value).value)
    ensures forall inner :: Wraps(text, inner) ==>
              AfterBegin(text).Ok? && BeforeCommit(text).Ok? && BeforeCommit(AfterBegin(text).value) == Ok(inner)
  {
    if AfterBegin(text).Ok? && BeforeCommit(text).Ok? { FoundWraps(text); }
    forall inner | Wraps(text, inner)
      ensures AfterBegin(text).Ok? && BeforeCommit(text).Ok? && BeforeCommit(AfterBegin(text).value) == Ok(inner)
    {
      WrapsFound(text, inner);
    }
    hide Wraps, AfterBegin, BeforeCommit;
  }

  lemma FoundWraps(text: string)
    requires AfterBegin(text).Ok? && BeforeCommit(text).Ok?
    ensures BeforeCommit(AfterBegin(text).value).Ok? && Wraps(text, BeforeCommit(AfterBegin(text).value).value)
  {
    var after, rest := AfterBegin(text).value, BeforeCommit(text).value;
    AfterBeginExactly(text, after);
    BeforeCommitExactly(text, rest);
    hide AfterBegin, BeforeCommit, BeginMarker, CommitMarker;
    var begin, gap :| BeginMarker(text, begin, gap, after);
    var commit, gap2, blank :| CommitMarker(text, rest, commit, gap2, blank);
    MarkersApart(text, begin, gap, after, rest, commit, gap2, blank);
    BothWrap(text, begin, gap, after, rest, commit, gap2, blank);
    var inner := rest[|begin| + |gap| + 1..];
    BeforeCommitExactly(after, inner);
  }

  lemma WrapsFound(text: string, inner: string)
    requires Wraps(text, inner)
    ensures AfterBegin(text).Ok? && BeforeCommit(text).Ok? && BeforeCommit(AfterBegin(text).value) == Ok(inner)
  {
    hide AfterBegin, BeforeCommit, BeginMarker, CommitMarker;
    var begin, gap, after, commit, gap2, blank :| BeginMarker(text, begin, gap, after) && CommitMarker(after, inner, commit, gap2, blank);
    AfterBeginExactly(text, after);
    BeforeCommitExactly(after, inner);
    InnerCommit(text, begin, gap, after, inner, commit, gap2, blank);
    BeforeCommitExactly(text, begin + gap + ";" + inner);
  }

  lemma InnerCommit(text: string, begin: string, gap: string, after: string, inner: string, commit: string, gap2: string, blank: string)
    requires BeginMarker(text, begin, gap, after) && CommitMarker(after, inner, commit, gap2, blank)
    ensures CommitMarker(text, begin + gap + ";" + inner, commit, gap2, blank)
  {
    hide IsSpace, Reads;
  }

  lemma BeginsFound(text: string)
    ensures Begins(text) <==> AfterBegin(text).Ok?
    ensures Commits(text) <==> BeforeCommit(text).Ok?
  {
    hide AfterBegin, BeforeCommit, BeginMarker, CommitMarker;
    if AfterBegin(text).Ok? { AfterBeginExactly(text, AfterBegin(text).value); }
    if BeforeCommit(text).Ok? { BeforeCommitExactly(text, BeforeCommit(text).value); }
    if begin, gap, rest :| BeginMarker(text, begin, gap, rest) { AfterBeginExactly(text, rest); }
    if rest, commit, gap, blank :| CommitMarker(text, rest, commit, gap, blank) { BeforeCommitExactly(text, rest); }
  }

  /** On every text: what is sent is the text of the file without its margins and, if it has both, its markers;
      and a file is refused exactly when one marker stands alone. */
  lemma RunsExactly(source: string, sql: string)
    ensures TransactionalSql(source) == Ok(sql) <==> RunsAs(source, sql)
    ensures TransactionalSql(source).Error? <==> exists body :: IsBody(source, body) && Begins(body) != Commits(body)
  {
    var body := Trim(source);
    forall b ensures IsBody(source, b) <==> b == body { BodyIsTrim(source, b); }
    BeginsFound(body);
    WrapsExactly(body);
    forall inner ensures IsBody(inner, sql) <==> Trim(inner) == sql { BodyIsTrim(inner, sql); }
    hide Trim, IsBody, AfterBegin, BeforeCommit, Begins, Commits, Wraps;
    assert IsBody(source, body);
  }

  // ---- checksums ignore the kind of line break ----

  /** CR LF and a lone CR become LF. */
  function Normalized(s: string): string {
    if s == [] then []
    else if s[0] == '\r' then ['\n'] + Normalized(if |s| > 1 && s[1] == '\n' then s[2..] else s[1..])
    else [s[0]] + Normalized(s[1..])
  }

  /** The lines with a break after each, and what follows the last break. */
  function Written(lines: seq<string>, breaks: seq<string>, last: string): string
    requires |lines| == |breaks|
  {
    if lines == [] then last else lines[0] + breaks[0] + Written(lines[1..], breaks[1..], last)
  }

  function Unix(n: nat): seq<string> { seq(n, i => "\n") }

  predicate IsBreak(s: string) { s == "\n" || s == "\r" || s == "\r\n" }

  predicate Unbroken(line: string) { '\r' !in line && '\n' !in line }

  /** Lines without breaks in them; a lone CR is not followed by an LF, which would make one break of the two. */
  predicate Readable(lines: seq<string>, breaks: seq<string>, last: string)
    requires |lines| == |breaks|
  {
    && (forall i :: 0 <= i < |lines| ==> Unbroken(lines[i])) && Unbroken(last)
    && (forall i :: 0 <= i < |breaks| ==> IsBreak(breaks[i]))
    && (forall i :: 0 <= i < |breaks| - 1 ==> breaks[i] == "\r" && lines[i + 1] == "" ==> breaks[i + 1] != "\n")
  }

  lemma {:induction false} PlainPart(line: string, rest: string)
    requires '\r' !in line
    ensures Normalized(line + rest) == line + Normalized(rest)
  {
    if line == [] {
      assert line + rest == rest;
    } else {
      assert (line + rest)[1..] == line[1..] + rest;
      PlainPart(line[1..], rest);
    }
  }

  lemma BreakPart(b: string, rest: string)
    requires IsBreak(b) && (b == "\r" ==> rest == "" || rest[0] != '\n')
    ensures Normalized(b + rest) == "\n" + Normalized(rest)
  {
    var s := b + rest;
    if b == "\r\n" { assert s[2..] == rest; } else { assert s[1..] == rest; }
  }

  lemma UnixRest(n: nat)
    requires n > 0
    ensures Unix(n)[0] == "\n" && Unix(n)[1..] == Unix(n - 1)
  {
  }

  lemma StartOfWritten(lines: seq<string>, breaks: seq<string>, last: string)
    requires |lines| == |breaks| && Readable(lines, breaks, last)
    requires lines != [] && lines[0] == "" ==> breaks[0] != "\n"
    ensures Written(lines, breaks, last) == "" || Written(lines, breaks, last)[0] != '\n'
  {
    if lines == [] {
      assert last == "" || last[0] in last;
    } else {
      var text := lines[0] + breaks[0] + Written(lines[1..], breaks[1..], last);
      if lines[0] == "" { assert text[0] == breaks[0][0]; } else { assert text[0] == lines[0][0] && lines[0][0] in lines[0]; }
    }
  }

  /** Whatever breaks a text is written with, CR LF, a lone CR or LF, it is read as if written with LF. */
  lemma {:induction false} BreaksNormalize(lines: seq<string>, breaks: seq<string>, last: string)
    requires |lines| == |breaks| && Readable(lines, breaks, last)
    ensures Normalized(Written(lines, breaks, last)) == Written(lines, Unix(|lines|), last)
    decreases |lines|
  {
    if lines == [] {
      NormalizedPlain(last);
    } else {
      var rest := Written(lines[1..], breaks[1..], last);
      assert lines[0] + breaks[0] + rest == lines[0] + (breaks[0] + rest);
      PlainPart(lines[0], breaks[0] + rest);
      if breaks[0] == "\r" { StartOfWritten(lines[1..], breaks[1..], last); }
      BreakPart(breaks[0], rest);
      UnixRest(|lines|);
      BreaksNormalize(lines[1..], breaks[1..], last);
      var unix := Written(lines[1..], Unix(|lines| - 1), last);
      assert lines[0] + "\n" + unix == lines[0] + ("\n" + unix);
    }
  }

  /** And every text is written so. */
  lemma {:induction false} EveryTextIsWritten(s: string) returns (lines: seq<string>, breaks: seq<string>, last: string)
    ensures |lines| == |breaks| && Readable(lines, breaks, last) && Written(lines, breaks, last) == s
  {
    if s == "" {
      lines, breaks, last := [], [], "";
    } else if s[0] == '\r' && |s| > 1 && s[1] == '\n' {
      lines, breaks, last := EveryTextIsWritten(s[2..]);
      BreakInFront(lines, breaks, last, "\r\n");
      assert s == "\r\n" + s[2..];
      lines, breaks := [""] + lines, ["\r\n"] + breaks;
    } else if s[0] == '\r' || s[0] == '\n' {
      lines, breaks, last := EveryTextIsWritten(s[1..]);
      BreakInFront(lines, breaks, last, [s[0]]);
      assert s == [s[0]] + s[1..];
      lines, breaks := [""] + lines, [[s[0]]] + breaks;
    } else {
      lines, breaks, last := EveryTextIsWritten(s[1..]);
      assert s == [s[0]] + s[1..];
      if lines == [] {
        last := [s[0]] + last;
      } else {
        LetterInFront(lines, breaks, last, s[0]);
        lines := [[s[0]] + lines[0]] + lines[1..];
      }
    }
  }

  lemma BreakInFront(lines: seq<string>, breaks: seq<string>, last: string, b: string)
    requires |lines| == |breaks| && Readable(lines, breaks, last) && IsBreak(b)
    requires b == "\r" ==> Written(lines, breaks, last) == "" || Written(lines, breaks, last)[0] != '\n'
    ensures Readable([""] + lines, [b] + breaks, last) && Written([""] + lines, [b] + breaks, last) == b + Written(lines, breaks, last)
  {
    assert ([""] + lines)[1..] == lines && ([b] + breaks)[1..] == breaks;
    if b == "\r" && lines != [] && lines[0] == "" {
      assert Written(lines, breaks, last)[0] == breaks[0][0];
    }
  }

  lemma LetterInFront(lines: seq<string>, breaks: seq<string>, last: string, c: char)
    requires |lines| == |breaks| && lines != [] && Readable(lines, breaks, last) && c != '\r' && c != '\n'
    ensures var longer := [[c] + lines[0]] + lines[1..];
            Readable(longer, breaks, last) && Written(longer, breaks, last) == [c] + Written(lines, breaks, last)
  {
    var longer := [[c] + lines[0]] + lines[1..];
    assert longer[1..] == lines[1..];
    assert [c] + lines[0] + breaks[0] + Written(lines[1..], breaks[1..], last) == [c] + (lines[0] + breaks[0] + Written(lines[1..], breaks[1..], last));
  }

  lemma {:induction false} NormalizedPlain(s: string)
    requires '\r' !in s
    ensures Normalized(s) == s
  {
    PlainPart(s, "");
    assert s + "" == s;
  }

  function Checksum(hash: string -> string, source: string): string { hash(Normalized(source)) }

  /** The checksum of a text is the hash of the text written with LF, whatever its breaks; and of the text itself
      where it has no CR. */
  lemma ChecksumIgnoresBreaks(hash: string -> string, lines: seq<string>, breaks: seq<string>, last: string, plain: string)
    requires |lines| == |breaks| && Readable(lines, breaks, last) && '\r' !in plain
    ensures Checksum(hash, Written(lines, breaks, last)) == hash(Written(lines, Unix(|lines|), last))
    ensures Checksum(hash, plain) == hash(plain)
  {
    BreaksNormalize(lines, breaks, last);
    NormalizedPlain(plain);
  }
}
