/** The mail service of src/services/EmailService.ts: the text helpers that turn
    a fetched message into ticket material (sender name, cleaned subject, plain
    text, keyword priority, category and tags), the connection flag that guards
    the server operations, and the batch loop of `processEmailsSecurely`.
    Network delays, logging and the sample messages the service fabricates are
    not modelled: the messages the server would return are a parameter. */
module EmailService {
  import opened Common
  import opened Domain

  // ---------------------------------------------------------------------------
  // extractSender: /^(.+?)\s*<(.+)>$/, then trim and drop quote characters
  // ---------------------------------------------------------------------------

  /** The characters that `.` in a regular expression does not match. */
  predicate IsLineTerminator(c: char)
  {
    c == '\n' || c == '\r' || c == '\U{2028}' || c == '\U{2029}'
  }

  predicate NoLineTerminator(s: string)
  {
    forall k :: 0 <= k < |s| ==> !IsLineTerminator(s[k])
  }

  /** The name-address pattern matches `from` with its first group `from[..i]`:
      the group is one or more non-line-terminator characters, white space
      follows up to a `<`, and one or more non-line-terminator characters
      stand between that `<` and a `>` that ends the text. */
  predicate NameEndsAt(from: string, i: int)
  {
    1 <= i <= |from| && NoLineTerminator(from[..i]) &&
    var j := i + LeadingSpace(from[i..]);
    j + 2 < |from| && from[j] == '<' && from[|from| - 1] == '>' && NoLineTerminator(from[j + 1..|from| - 1])
  }

  predicate IsNameAddr(from: string)
  {
    exists i :: 1 <= i <= |from| && NameEndsAt(from, i)
  }

  /** The lazy group `(.+?)` takes the shortest prefix with which the rest of
      the pattern matches: the least `i` from `lo` on. */
  function ShortestNameEnd(from: string, lo: nat): (r: Option<nat>)
    requires lo >= 1
    ensures r.Some? ==> lo <= r.value && NameEndsAt(from, r.value)
    ensures r.Some? ==> forall k :: lo <= k < r.value ==> !NameEndsAt(from, k)
    ensures r.None? ==> forall k :: lo <= k ==> !NameEndsAt(from, k)
    decreases |from| + 1 - lo
  {
    if lo > |from| then None
    else if NameEndsAt(from, lo) then Some(lo)
    else ShortestNameEnd(from, lo + 1)
  }

  function DropQuotes(s: string): (r: string)
  {
    Filter(s, (c: char) => c != '\'' && c != '"')
  }

  /** `extractSender`: the display name of a `Name <address>` sender, trimmed
      and without quote characters; any other text comes back unchanged. */
  function ExtractSender(from: string): (r: string)
    ensures !IsNameAddr(from) ==> r == from
    ensures IsNameAddr(from) ==>
      (exists i :: NameEndsAt(from, i) && r == DropQuotes(Trim(from[..i])) && (forall k :: 1 <= k < i ==> !NameEndsAt(from, k)))
    ensures IsNameAddr(from) ==> '\'' !in r && '"' !in r
  {
    match ShortestNameEnd(from, 1)
    case None => from
    case Some(i) => DropQuotes(Trim(from[..i]))
  }

  /** "A <b>" names its sender "A". */
  lemma ExtractSenderExample()
    ensures ExtractSender("A <b>") == "A"
  {
    var from := "A <b>";
    assert from[1..] == " <b>";
    assert LeadingSpace("<b>") == 0;
    assert " <b>"[1..] == "<b>";
    assert LeadingSpace(" <b>") == 1;
    assert from[..1] == "A";
    assert NameEndsAt(from, 1);
    assert ShortestNameEnd(from, 1) == Some(1);
    TrimmedIsFixed("A");
    FilterKeepsAll("A", (c: char) => c != '\'' && c != '"');
  }

  // ---------------------------------------------------------------------------
  // cleanSubject: /^(RE:|FW:|FWD:)\s*/i removed once, then trim
  // ---------------------------------------------------------------------------

  /** Case folding of the `i` flag without `u`: only ASCII letters fold. */
  function AsciiUpper(c: char): char
  {
    if 'a' <= c <= 'z' then (c as int - 32) as char else c
  }

  predicate StartsWithIgnoringCase(s: string, prefix: string)
  {
    |prefix| <= |s| && forall k :: 0 <= k < |prefix| ==> AsciiUpper(s[k]) == AsciiUpper(prefix[k])
  }

  /** The length of the reply or forward marker at the front of a subject, the
      alternatives tried in the order RE:, FW:, FWD:; 0 when there is none. */
  function ReplyMarkerLength(subject: string): (n: nat)
    ensures n <= |subject|
  {
    if StartsWithIgnoringCase(subject, "RE:") then 3
    else if StartsWithIgnoringCase(subject, "FW:") then 3
    else if StartsWithIgnoringCase(subject, "FWD:") then 4
    else 0
  }

  predicate HasReplyMarker(subject: string)
  {
    StartsWithIgnoringCase(subject, "RE:") || StartsWithIgnoringCase(subject, "FW:")
    || StartsWithIgnoringCase(subject, "FWD:")
  }

  /** `cleanSubject`. */
  function CleanSubject(subject: string): (r: string)
    ensures Trimmed(r) && |r| <= |subject|
    ensures !HasReplyMarker(subject) ==> r == Trim(subject)
    ensures StartsWithIgnoringCase(subject, "RE:") || StartsWithIgnoringCase(subject, "FW:")
      ==> r == Trim(subject[3..])
    ensures StartsWithIgnoringCase(subject, "FWD:") ==> r == Trim(subject[4..])
  {
    FwdMarkerIsLonger(subject);
    var n := ReplyMarkerLength(subject);
    var rest := subject[n..];
    MarkerGapIgnored(rest);
    assert !HasReplyMarker(subject) ==> rest == subject;
    Trim(rest[LeadingSpace(rest)..])
  }

  /** A subject that starts with FWD: starts with neither RE: nor FW:, so the
      whole four-character marker is read. */
  lemma FwdMarkerIsLonger(subject: string)
    ensures StartsWithIgnoringCase(subject, "FWD:") ==> ReplyMarkerLength(subject) == 4
    ensures StartsWithIgnoringCase(subject, "RE:") || StartsWithIgnoringCase(subject, "FW:")
      ==> ReplyMarkerLength(subject) == 3
  {
    if StartsWithIgnoringCase(subject, "FWD:") {
      assert AsciiUpper(subject[0]) == AsciiUpper("FWD:"[0]) == 'F';
      assert AsciiUpper(subject[2]) == AsciiUpper("FWD:"[2]) == 'D';
      assert !StartsWithIgnoringCase(subject, "RE:") by { assert AsciiUpper("RE:"[0]) == 'R'; }
      assert !StartsWithIgnoringCase(subject, "FW:") by { assert AsciiUpper("FW:"[2]) == ':'; }
    }
  }

  /** Dropping the white space after the marker before trimming changes
      nothing. */
  lemma MarkerGapIgnored(rest: string)
    ensures Trim(rest[LeadingSpace(rest)..]) == Trim(rest)
  {
    var w := LeadingSpace(rest);
    assert rest == rest[..w] + rest[w..];
    TrimSkipsLeadingSpace(rest[..w], rest[w..]);
  }

  /** Only one marker is removed: "RE: RE: x" becomes "RE: x". */
  lemma CleanSubjectRemovesOneMarker(x: string)
    requires x != [] && Trimmed(x)
    ensures CleanSubject("RE: RE: " + x) == "RE: " + x
  {
    var t := "RE: " + x;
    assert "RE: RE: " + x == "RE:" + " " + t by {
      assert "RE: RE: " == "RE: " + "RE: " && "RE:" + " " == "RE: ";
      SeqAssoc3("RE: ", "RE: ", x);
    }
    assert Trimmed(t) by {
      assert t[0] == 'R' && t[|t| - 1] == x[|x| - 1];
    }
    ReMarkerLength();
    assert AllSpace(" ");
    CleanSubjectOfMarkedText("RE:", " ", t);
  }

  lemma ReMarkerLength()
    ensures ReplyMarkerLength("RE:") == |"RE:"| == 3
  {
    assert StartsWithIgnoringCase("RE:", "RE:");
  }

  /** The pattern is anchored and not global: a second marker after the
      first one stays in the cleaned subject. */
  lemma CleanSubjectKeepsSecondMarker(first: string, gap: string, second: string, text: string)
    requires ReplyMarkerLength(first) == |first| > 0 && ReplyMarkerLength(second) == |second| > 0
    requires AllSpace(gap) && Trimmed(second + text)
    ensures CleanSubject(first + gap + second + text) == second + text
  {
    assert first + gap + second + text == first + gap + (second + text);
    CleanSubjectOfMarkedText(first, gap, second + text);
  }

  lemma StartsWithIgnoringCaseOfLongerText(m: string, rest: string, p: string)
    requires |p| <= |m|
    ensures StartsWithIgnoringCase(m + rest, p) <==> StartsWithIgnoringCase(m, p)
  {
    assert forall k :: 0 <= k < |p| ==> (m + rest)[k] == m[k];
  }

  /** A marker in any letter case, the white space after it and the white
      space around the text all go; what remains is the text. */
  lemma CleanSubjectOfMarkedText(marker: string, gap: string, text: string)
    requires ReplyMarkerLength(marker) == |marker| > 0
    requires AllSpace(gap) && Trimmed(text)
    ensures CleanSubject(marker + gap + text) == text
  {
    var s := marker + gap + text;
    assert s == marker + (gap + text);
    MarkerLengthOfMarkedText(marker, gap + text);
    assert s[|marker|..] == gap + text;
    MarkerGapIgnored(gap + text);
    TrimSkipsLeadingSpace(gap, text);
    TrimmedIsFixed(text);
  }

  /** Text after a whole marker does not change which marker is read. */
  lemma MarkerLengthOfMarkedText(marker: string, rest: string)
    requires ReplyMarkerLength(marker) == |marker| > 0
    ensures ReplyMarkerLength(marker + rest) == |marker|
  {
    StartsWithIgnoringCaseOfLongerText(marker, rest, "RE:");
    StartsWithIgnoringCaseOfLongerText(marker, rest, "FW:");
    if |marker| == 4 {
      StartsWithIgnoringCaseOfLongerText(marker, rest, "FWD:");
    }
  }

  // ---------------------------------------------------------------------------
  // extractTextFromBody
  // ---------------------------------------------------------------------------

  /** `replace(/<[^>]*>/g, '')`: every `<` that has a `>` after it starts a tag
      that runs to the first such `>`; tags are removed, a `<` with no `>`
      after it stays. */
  function StripTags(s: string): (r: string)
    ensures |r| <= |s|
    ensures forall c :: c in r ==> c in s
    ensures NoTag(r)
    decreases |s|
  {
    if s == [] then []
    else if s[0] == '<' && '>' in s then
      StripTags(s[IndexOf(s, '>') + 1..])
    else
      var rest := StripTags(s[1..]);
      assert s[0] == '<' ==> '>' !in rest;
      [s[0]] + rest
  }

  /** No `<` is followed, anywhere later, by a `>`. */
  predicate NoTag(s: string)
  {
    forall i, j :: 0 <= i < j < |s| && s[i] == '<' ==> s[j] != '>'
  }

  /** `replace(/&nbsp;/g, ' ')`. */
  function ReplaceNbsp(s: string): (r: string)
    ensures forall c :: c in r ==> c in s || c == ' '
    ensures |r| <= |s|
  {
    if |s| >= 6 && s[..6] == "&nbsp;" then " " + ReplaceNbsp(s[6..])
    else if s == [] then []
    else [s[0]] + ReplaceNbsp(s[1..])
  }

  lemma {:induction false} ReplaceNbspKeepsNoTag(s: string)
    requires NoTag(s)
    ensures NoTag(ReplaceNbsp(s))
    decreases |s|
  {
    if |s| >= 6 && s[..6] == "&nbsp;" {
      ReplaceNbspKeepsNoTag(s[6..]);
    } else if s != [] {
      ReplaceNbspKeepsNoTag(s[1..]);
      var rest := ReplaceNbsp(s[1..]);
      assert s[0] == '<' ==> '>' !in s[1..];
      assert s[0] == '<' ==> '>' !in rest;
      assert ReplaceNbsp(s) == [s[0]] + rest;
    }
  }

  lemma NoTagOfSegment(s: string, i: nat, j: nat)
    requires NoTag(s) && i <= j <= |s|
    ensures NoTag(s[i..j])
  {
    forall a, b | 0 <= a < b < j - i && s[i..j][a] == '<' ensures s[i..j][b] != '>' {
      assert s[i..j][a] == s[i + a] && s[i..j][b] == s[i + b];
    }
  }

  /** Text without a tag passes through unchanged. */
  lemma {:induction false} StripTagsOfPlain(s: string)
    requires NoTag(s)
    ensures StripTags(s) == s
    decreases |s|
  {
    if s != [] {
      assert s[0] == '<' ==> '>' !in s;
      NoTagOfSegment(s, 1, |s|);
      StripTagsOfPlain(s[1..]);
    }
  }

  /** Text in front of the first tag is kept, the tag `<t>` goes, and the
      rest is stripped in turn. */
  lemma StripTagsOfTag(a: string, t: string, b: string)
    requires '<' !in a && '>' !in t
    ensures StripTags(a + "<" + t + ">" + b) == a + StripTags(b)
  {
    assert a + "<" + t + ">" + b == a + ("<" + t + ">" + b);
    StripTagsKeepsPrefix(a, "<" + t + ">" + b);
    StripTagsOfLeadingTag(t, b);
  }

  /** Text without `<` in front is kept as it is. */
  lemma {:induction false} StripTagsKeepsPrefix(a: string, m: string)
    requires '<' !in a
    ensures StripTags(a + m) == a + StripTags(m)
    decreases |a|
  {
    if a != [] {
      assert a + m == [a[0]] + (a[1..] + m);
      StripTagsOfLeadingChar(a[0], a[1..] + m);
      StripTagsKeepsPrefix(a[1..], m);
      assert a == [a[0]] + a[1..];
      SeqAssoc3([a[0]], a[1..], StripTags(m));
    } else {
      assert a + m == m;
    }
  }

  lemma StripTagsOfLeadingTag(t: string, b: string)
    requires '>' !in t
    ensures StripTags("<" + t + ">" + b) == StripTags(b)
  {
    var s := "<" + t + ">" + b;
    assert s[1 + |t|] == '>';
    assert IndexOf(s, '>') == 1 + |t| by {
      assert forall k :: 0 <= k < 1 + |t| ==> s[k] != '>' by {
        assert forall k :: 1 <= k < 1 + |t| ==> s[k] == t[k - 1];
      }
    }
    assert s[2 + |t|..] == b;
  }

  lemma StripTagsOfLeadingChar(c: char, rest: string)
    requires c != '<'
    ensures StripTags([c] + rest) == [c] + StripTags(rest)
  {
    assert ([c] + rest)[1..] == rest;
  }

  /** Text without `&nbsp;` passes through unchanged. */
  lemma {:induction false} ReplaceNbspWithoutEntity(s: string)
    requires !Contains(s, "&nbsp;")
    ensures ReplaceNbsp(s) == s
    decreases |s|
  {
    OccursAtStart(s, "&nbsp;");
    if |s| >= 6 && s[..6] == "&nbsp;" {
      assert false;
    } else if s != [] {
      assert !Contains(s[1..], "&nbsp;") by {
        if Contains(s[1..], "&nbsp;") {
          var i :| 0 <= i <= |s[1..]| - 6 && OccursAt(s[1..], "&nbsp;", i);
          assert s[i + 1..i + 7] == s[1..][i..i + 6];
          assert OccursAt(s, "&nbsp;", i + 1);
        }
      }
      ReplaceNbspWithoutEntity(s[1..]);
    }
  }

  lemma OccursAtStart(s: string, sub: string)
    ensures |sub| <= |s| && s[..|sub|] == sub ==> Contains(s, sub)
  {
    if |sub| <= |s| && s[..|sub|] == sub {
      assert OccursAt(s, sub, 0);
    }
  }

  /** A text without the first character of `sub` does not contain `sub`. */
  lemma FirstCharAbsent(s: string, sub: string)
    requires sub != [] && sub[0] !in s
    ensures !Contains(s, sub)
  {
    forall i | 0 <= i <= |s| - |sub|
      ensures !OccursAt(s, sub, i)
    {
      assert s[i..i + |sub|][0] == s[i];
    }
  }

  /** Text in front of the first `&` is kept, `&nbsp;` becomes a space, and
      the rest is replaced in turn. */
  lemma ReplaceNbspOfEntity(a: string, b: string)
    requires '&' !in a
    ensures ReplaceNbsp(a + "&nbsp;" + b) == a + " " + ReplaceNbsp(b)
  {
    var m := "&nbsp;" + b;
    assert a + "&nbsp;" + b == a + m;
    ReplaceNbspKeepsPrefix(a, m);
    assert m[..6] == "&nbsp;" && m[6..] == b;
  }

  /** Text without `&` in front is kept as it is. */
  lemma {:induction false} ReplaceNbspKeepsPrefix(a: string, m: string)
    requires '&' !in a
    ensures ReplaceNbsp(a + m) == a + ReplaceNbsp(m)
    decreases |a|
  {
    if a != [] {
      assert a + m == [a[0]] + (a[1..] + m);
      ReplaceNbspOfLeadingChar(a[0], a[1..] + m);
      ReplaceNbspKeepsPrefix(a[1..], m);
      assert a == [a[0]] + a[1..];
      SeqAssoc3([a[0]], a[1..], ReplaceNbsp(m));
    } else {
      assert a + m == m;
    }
  }

  lemma ReplaceNbspOfLeadingChar(c: char, rest: string)
    requires c != '&'
    ensures ReplaceNbsp([c] + rest) == [c] + ReplaceNbsp(rest)
  {
    var s := [c] + rest;
    assert s[1..] == rest;
    if |s| >= 6 {
      assert s[..6][0] != "&nbsp;"[0];
    }
  }

  /** True when the body is taken for HTML: it holds both `<` and `>`. */
  predicate LooksLikeHtml(body: string)
  {
    '<' in body && '>' in body
  }

  /** `extractTextFromBody`: markup is stripped only from a body that looks
      like HTML; any body is trimmed. */
  function ExtractTextFromBody(body: string): (r: string)
    ensures Trimmed(r)
    ensures !LooksLikeHtml(body) ==> r == Trim(body)
    ensures LooksLikeHtml(body) ==> NoTag(r)
    ensures LooksLikeHtml(body) ==> r == Trim(ReplaceNbsp(StripTags(body)))
  {
    if LooksLikeHtml(body) then
      var stripped := StripTags(body);
      var text := ReplaceNbsp(stripped);
      ReplaceNbspKeepsNoTag(stripped);
      var r := Trim(text);
      NoTagOfSegment(text, LeadingSpace(text), LeadingSpace(text) + |r|);
      r
    else Trim(body)
  }

  /** An element around two words joined by `&nbsp;` gives the two words
      with a space between them. */
  lemma ExtractTextOfElement(tag: string, a: string, b: string)
    requires '>' !in tag && '<' !in a && '<' !in b && '&' !in a && '&' !in b
    requires a != [] && b != [] && !IsSpace(a[0]) && !IsSpace(b[|b| - 1])
    ensures ExtractTextFromBody("<" + tag + ">" + a + "&nbsp;" + b + "</" + tag + ">") == a + " " + b
  {
    var text := a + "&nbsp;" + b;
    var close := "/" + tag;
    var inner := text + "<" + close + ">" + "";
    var body := "" + "<" + tag + ">" + inner;
    assert body == "<" + tag + ">" + a + "&nbsp;" + b + "</" + tag + ">";
    assert '<' !in text;
    StripTagsOfTag("", tag, inner);
    StripTagsOfTag(text, close, "");
    assert StripTags(body) == text;
    ReplaceNbspOfEntity(a, b);
    FirstCharAbsent(b, "&nbsp;");
    ReplaceNbspWithoutEntity(b);
    TrimmedIsFixed(a + " " + b);
    assert LooksLikeHtml(body) by { assert body[0] == '<' && body[|body| - 1] == '>'; }
  }

  // ---------------------------------------------------------------------------
  // determinePriority, categorizeEmail, extractTags
  // ---------------------------------------------------------------------------

  /** The text the keyword rules read: subject and body, lower-cased. */
  function Content(subject: string, body: string): string
  {
    Lower(subject + " " + body)
  }

  function CriticalKeywords(): seq<string>
  {
    ["urgente", "crítico", "emergencia", "caído", "no funciona", "error grave"]
  }

  function HighKeywords(): seq<string>
  {
    ["importante", "prioridad", "problema", "fallo", "error"]
  }

  function LowKeywords(): seq<string>
  {
    ["consulta", "pregunta", "información", "solicitud"]
  }

  /** The keyword list that selects each priority; medium has none, it is the
      default. */
  function KeywordsFor(p: Priority): seq<string>
  {
    match p
    case Critical => CriticalKeywords()
    case High => HighKeywords()
    case Low => LowKeywords()
    case Medium => []
  }

  /** The order in which the keyword lists are consulted: critical first, then
      high, then low; medium is what is left. */
  function Precedence(p: Priority): nat
  {
    match p
    case Critical => 3
    case High => 2
    case Low => 1
    case Medium => 0
  }

  /** `determinePriority`. */
  function DeterminePriority(subject: string, body: string): (p: Priority)
  {
    var content := Content(subject, body);
    if ContainsAny(content, CriticalKeywords()) then Critical
    else if ContainsAny(content, HighKeywords()) then High
    else if ContainsAny(content, LowKeywords()) then Low
    else Medium
  }

  /** The priority is the level of highest precedence whose keywords occur in
      the content, and medium exactly when none occurs. */
  lemma DeterminePriorityIsFirstMatchingLevel(subject: string, body: string)
    ensures var p := DeterminePriority(subject, body);
      var content := Content(subject, body);
      && (p != Medium ==> ContainsAny(content, KeywordsFor(p)))
      && (p == Medium <==> forall q :: !ContainsAny(content, KeywordsFor(q)))
      && (forall q :: ContainsAny(content, KeywordsFor(q)) ==> Precedence(q) <= Precedence(p))
  {
    var content := Content(subject, body);
    assert !ContainsAny(content, KeywordsFor(Medium));
  }

  /** A critical keyword wins over any high or low keyword in the same text. */
  lemma CriticalKeywordWins(subject: string, body: string, k: nat)
    requires k < |CriticalKeywords()| && Contains(Content(subject, body), CriticalKeywords()[k])
    ensures DeterminePriority(subject, body) == Critical
  {
  }

  /** The categories in the order they are tried, each with its keywords. */
  function CategoryTable(): seq<(string, seq<string>)>
  {
    [("hardware", ["impresora", "imprimir"]),
     ("network", ["red", "internet", "wifi"]),
     ("software", ["software", "programa", "aplicación"]),
     ("access", ["acceso", "usuario", "contraseña"]),
     ("email", ["email", "correo"])]
  }

  /** `categorizeEmail`, as the source writes it: one test per category,
      each a disjunction of `includes`. */
  function CategorizeEmail(subject: string, body: string): (r: string)
  {
    var content := Content(subject, body);
    if ContainsAny(content, ["impresora", "imprimir"]) then "hardware"
    else if ContainsAny(content, ["red", "internet", "wifi"]) then "network"
    else if ContainsAny(content, ["software", "programa", "aplicación"]) then "software"
    else if ContainsAny(content, ["acceso", "usuario", "contraseña"]) then "access"
    else if ContainsAny(content, ["email", "correo"]) then "email"
    else "general"
  }

  /** The first entry of `table` whose keywords occur in `content`, or
      'general'. */
  function FirstMatchingCategory(content: string, table: seq<(string, seq<string>)>): (r: string)
    ensures r == "general" ||
      (exists k :: 0 <= k < |table| && table[k].0 == r && ContainsAny(content, table[k].1)
         && forall j :: 0 <= j < k ==> !ContainsAny(content, table[j].1))
    ensures (forall k :: 0 <= k < |table| ==> !ContainsAny(content, table[k].1)) ==> r == "general"
  {
    if table == [] then "general"
    else if ContainsAny(content, table[0].1) then table[0].0
    else
      var r := FirstMatchingCategory(content, table[1..]);
      assert forall k :: 1 <= k < |table| ==> table[k] == table[1..][k - 1];
      r
  }

  /** The if-chain is the first-match rule over the category table, and the
      result is 'general' exactly when no keyword occurs. */
  lemma CategorizeEmailIsFirstMatch(subject: string, body: string)
    ensures CategorizeEmail(subject, body) == FirstMatchingCategory(Content(subject, body), CategoryTable())
    ensures CategorizeEmail(subject, body) == "general" <==>
      forall k :: 0 <= k < |CategoryTable()| ==> !ContainsAny(Content(subject, body), CategoryTable()[k].1)
  {
    var c := Content(subject, body);
    var t := CategoryTable();
    var t1, t2, t3, t4 := t[1..], t[2..], t[3..], t[4..];
    assert t1[1..] == t2 && t2[1..] == t3 && t3[1..] == t4 && t4[1..] == [];
    assert FirstMatchingCategory(c, t4) == if ContainsAny(c, t[4].1) then "email" else "general";
    assert FirstMatchingCategory(c, t3) == if ContainsAny(c, t[3].1) then "access" else FirstMatchingCategory(c, t4);
    assert FirstMatchingCategory(c, t2) == if ContainsAny(c, t[2].1) then "software" else FirstMatchingCategory(c, t3);
    assert FirstMatchingCategory(c, t1) == if ContainsAny(c, t[1].1) then "network" else FirstMatchingCategory(c, t2);
    assert FirstMatchingCategory(c, t) == if ContainsAny(c, t[0].1) then "hardware" else FirstMatchingCategory(c, t1);
  }

  /** Every tag `extractTags` can produce, in the order it adds them. */
  function TagOrder(): seq<string>
  {
    ["email-import", "reply", "attachments", "urgent", "hardware", "software", "network"]
  }

  /** The entries of `xs` whose flag is set, in their order: a list built by
      pushing each entry whose condition holds. */
  function Select<T>(xs: seq<T>, flags: seq<bool>): (r: seq<T>)
    requires |flags| == |xs|
    ensures |r| <= |xs|
  {
    if xs == [] then []
    else (if flags[0] then [xs[0]] else []) + Select(xs[1..], flags[1..])
  }

  lemma {:induction false} SelectIsSubsequence<T>(xs: seq<T>, flags: seq<bool>)
    requires |flags| == |xs|
    ensures IsSubsequence(Select(xs, flags), xs)
  {
    if xs != [] {
      SelectIsSubsequence(xs[1..], flags[1..]);
      var r := Select(xs, flags);
      if flags[0] {
        assert r[0] == xs[0] && r[1..] == Select(xs[1..], flags[1..]);
      } else {
        assert r == Select(xs[1..], flags[1..]);
      }
    }
  }

  /** An entry of a list without repetitions is selected exactly when its flag
      is set. */
  lemma {:induction false} SelectMembership<T>(xs: seq<T>, flags: seq<bool>, k: nat)
    requires |flags| == |xs| && NoDuplicates(xs) && k < |xs|
    ensures xs[k] in Select(xs, flags) <==> flags[k]
  {
    var rest := Select(xs[1..], flags[1..]);
    assert Select(xs, flags) == (if flags[0] then [xs[0]] else []) + rest;
    SelectIsSubsequence(xs[1..], flags[1..]);
    assert NoDuplicates(xs[1..]);
    SubsequenceOfDistinctHasNoDuplicates(rest, xs[1..]);
    if k == 0 {
      assert xs[0] !in xs[1..];
    } else {
      SelectMembership(xs[1..], flags[1..], k - 1);
      assert xs[1..][k - 1] == xs[k];
      assert xs[k] != xs[0];
    }
  }

  /** The conditions of `extractTags`, one per entry of `TagOrder`. */
  function TagFlags(email: ImportedEmail): (flags: seq<bool>)
    ensures |flags| == |TagOrder()|
  {
    var content := Content(email.subject, email.body);
    [true, email.isReply, |email.attachments| > 0, Contains(content, "urgente"),
     Contains(content, "hardware"), Contains(content, "software"), Contains(content, "red")]
  }

  /** `extractTags`: 'email-import', then each further tag whose condition
      holds, in the order the source pushes them. */
  function ExtractTags(email: ImportedEmail): (tags: seq<string>)
    ensures |tags| >= 1 && tags[0] == "email-import"
    ensures forall k :: 0 <= k < |TagOrder()| ==> (TagOrder()[k] in tags <==> TagFlags(email)[k])
    ensures NoDuplicates(tags) && IsSubsequence(tags, TagOrder())
  {
    var order := TagOrder();
    var flags := TagFlags(email);
    var tags := Select(order, flags);
    assert NoDuplicates(order);
    SelectIsSubsequence(order, flags);
    SubsequenceOfDistinctHasNoDuplicates(tags, order);
    forall k | 0 <= k < |order| ensures order[k] in tags <==> flags[k] {
      SelectMembership(order, flags, k);
    }
    tags
  }

  /** The tags in the source's terms. */
  lemma ExtractTagsConditions(email: ImportedEmail)
    ensures var tags := ExtractTags(email);
      var content := Content(email.subject, email.body);
      && ("reply" in tags <==> email.isReply)
      && ("attachments" in tags <==> |email.attachments| > 0)
      && ("urgent" in tags <==> Contains(content, "urgente"))
      && ("hardware" in tags <==> Contains(content, "hardware"))
      && ("software" in tags <==> Contains(content, "software"))
      && ("network" in tags <==> Contains(content, "red"))
  {
    var order := TagOrder();
    assert order[1] == "reply" && order[2] == "attachments" && order[3] == "urgent";
    assert order[4] == "hardware" && order[5] == "software" && order[6] == "network";
  }


  // ---------------------------------------------------------------------------
  // processEmail
  // ---------------------------------------------------------------------------

  datatype ProcessedInfo = ProcessedInfo(
    sender: string,
    subject: string,
    date: string,
    bodyText: string,
    bodyHtml: Option<string>,
    attachments: seq<EmailAttachment>,
    isReply: bool,
    priority: Priority,
    category: string,
    tags: seq<string>)

  /** `processEmail`; `date` is the locale rendering of the reception time,
      which is not modelled. */
  function ProcessEmail(email: ImportedEmail, date: string): (info: ProcessedInfo)
    ensures info.attachments == email.attachments && info.isReply == email.isReply
    ensures info.bodyHtml == email.bodyHtml
    ensures ("reply" in info.tags <==> info.isReply) && ("attachments" in info.tags <==> |info.attachments| > 0)
    ensures Trimmed(info.subject) && Trimmed(info.bodyText)
    ensures info.sender == ExtractSender(email.from) && info.subject == CleanSubject(email.subject)
    ensures info.date == date && info.bodyText == ExtractTextFromBody(email.body)
    ensures info.priority == DeterminePriority(email.subject, email.body)
    ensures info.category == CategorizeEmail(email.subject, email.body)
    ensures info.tags == ExtractTags(email)
  {
    ExtractTagsConditions(email);
    ProcessedInfo(
      ExtractSender(email.from), CleanSubject(email.subject), date, ExtractTextFromBody(email.body),
      email.bodyHtml, email.attachments, email.isReply, DeterminePriority(email.subject, email.body),
      CategorizeEmail(email.subject, email.body), ExtractTags(email))
  }

  // ---------------------------------------------------------------------------
  // The service object and its connection flag
  // ---------------------------------------------------------------------------

  predicate SupportedProvider(provider: string)
  {
    provider == "imap" || provider == "pop3" || provider == "exchange"
  }

  const NotConnected := "No hay conexión activa al servidor de correo"

  class EmailService {
    var isConnected: bool

    constructor()
      ensures !isConnected
    {
      isConnected := false;
    }

    /** `connect`: only a supported protocol with a user name and a password
        opens the connection; a failure leaves the flag as it was. */
    method Connect(account: EmailAccount) returns (r: Result<bool>)
      modifies this
      ensures !SupportedProvider(account.provider) ==>
        r == Err("Error de conexión: Proveedor no soportado: " + account.provider) && isConnected == old(isConnected)
      ensures SupportedProvider(account.provider) && (account.username == "" || account.password == "") ==>
        r == Err("Error de conexión: Credenciales inválidas") && isConnected == old(isConnected)
      ensures SupportedProvider(account.provider) && account.username != "" && account.password != "" ==>
        r == Ok(true) && isConnected
    {
      if !SupportedProvider(account.provider) {
        return Err("Error de conexión: Proveedor no soportado: " + account.provider);
      }
      if account.username == "" || account.password == "" {
        return Err("Error de conexión: Credenciales inválidas");
      }
      isConnected := true;
      return Ok(true);
    }

    /** `getUnreadEmails`: refused without a connection; otherwise what the
        server holds (`serverMessages`) is returned. */
    method GetUnreadEmails(serverMessages: seq<ImportedEmail>) returns (r: Result<seq<ImportedEmail>>)
      ensures !isConnected ==> r == Err(NotConnected)
      ensures isConnected ==> r == Ok(serverMessages)
    {
      if !isConnected {
        return Err(NotConnected);
      }
      return Ok(serverMessages);
    }

    /** `markAsRead`: refused without a connection. */
    method MarkAsRead(messageId: string) returns (r: Result<string>)
      ensures r.Err? <==> !isConnected
      ensures r.Err? ==> r.message == NotConnected
      ensures r.Ok? ==> r.value == messageId
    {
      if !isConnected {
        return Err(NotConnected);
      }
      return Ok(messageId);
    }

    /** `disconnect`. */
    method Disconnect()
      modifies this
      ensures !isConnected
    {
      if isConnected {
        isConnected := false;
      }
    }

    function IsConnectionActive(): bool
      reads this
    {
      isConnected
    }
  }

  // ---------------------------------------------------------------------------
  // processEmailsSecurely
  // ---------------------------------------------------------------------------

  /** The messages that survive processing, in their order, each marked as
      processed; `fails[k]` says whether processing message `k` throws (for
      instance on a message from the server that lacks a field). */
  function Survivors(emails: seq<ImportedEmail>, fails: seq<bool>): (r: seq<ImportedEmail>)
    requires |fails| == |emails|
  {
    if emails == [] then []
    else (if fails[0] then [] else [emails[0].(processed := true)]) + Survivors(emails[1..], fails[1..])
  }

  lemma {:induction false} SurvivorsAppend(emails: seq<ImportedEmail>, fails: seq<bool>, e: ImportedEmail, f: bool)
    requires |fails| == |emails|
    ensures Survivors(emails + [e], fails + [f]) == Survivors(emails, fails) + (if f then [] else [e.(processed := true)])
  {
    if emails == [] {
      assert emails + [e] == [e] && fails + [f] == [f];
    } else {
      assert (emails + [e])[1..] == emails[1..] + [e];
      assert (fails + [f])[1..] == fails[1..] + [f];
      SurvivorsAppend(emails[1..], fails[1..], e, f);
    }
  }

  /** What the loop returns: every message that did not fail, marked processed,
      with its other fields untouched, in input order, and nothing else. */
  lemma {:induction false} SurvivorsAreTheNonFailing(emails: seq<ImportedEmail>, fails: seq<bool>)
    requires |fails| == |emails|
    ensures var r := Survivors(emails, fails);
      && (forall k :: 0 <= k < |r| ==> r[k].processed)
      && |r| == |Filter(fails, (b: bool) => !b)|
      && IsSubsequence(r, MapSeq(emails, (e: ImportedEmail) => e.(processed := true)))
      && (forall k :: 0 <= k < |emails| && !fails[k] ==> emails[k].(processed := true) in r)
  {
    if emails != [] {
      SurvivorsAreTheNonFailing(emails[1..], fails[1..]);
      var marked := MapSeq(emails, (e: ImportedEmail) => e.(processed := true));
      assert marked[1..] == MapSeq(emails[1..], (e: ImportedEmail) => e.(processed := true));
      var r := Survivors(emails, fails);
      var rest := Survivors(emails[1..], fails[1..]);
      if fails[0] {
        assert r == rest;
      } else {
        assert r[0] == marked[0] && r[1..] == rest;
      }
      forall k | 0 <= k < |emails| && !fails[k] ensures emails[k].(processed := true) in r {
        if k > 0 { assert emails[1..][k - 1] == emails[k] && fails[1..][k - 1] == fails[k]; }
      }
    }
  }

  /** `processEmailsSecurely`: connect (a failure is passed on), fetch, then
      process every message, skipping the ones whose processing throws, and
      disconnect. */
  method ProcessEmailsSecurely(account: EmailAccount, serverMessages: seq<ImportedEmail>, fails: seq<bool>)
    returns (r: Result<seq<ImportedEmail>>)
    requires |fails| == |serverMessages|
    ensures (SupportedProvider(account.provider) && account.username != "" && account.password != "")
      ==> r == Ok(Survivors(serverMessages, fails))
    ensures !(SupportedProvider(account.provider) && account.username != "" && account.password != "")
      ==> r.Err?
  {
    var service := new EmailService();
    var connected := service.Connect(account);
    if connected.Err? {
      service.Disconnect();
      return Err(connected.message);
    }
    var fetched := service.GetUnreadEmails(serverMessages);
    assert fetched == Ok(serverMessages);
    var emails := fetched.value;
    var processed: seq<ImportedEmail> := [];
    var i := 0;
    while i < |emails|
      invariant 0 <= i <= |emails| && emails == serverMessages
      invariant service.isConnected
      invariant processed == Survivors(emails[..i], fails[..i])
    {
      var email := emails[i];
      if !fails[i] {
        email := email.(processed := true);
        var marked := service.MarkAsRead(email.messageId);
        if marked.Ok? {
          processed := processed + [email];
        }
      }
      assert emails[..i + 1] == emails[..i] + [emails[i]];
      assert fails[..i + 1] == fails[..i] + [fails[i]];
      SurvivorsAppend(emails[..i], fails[..i], emails[i], fails[i]);
      i := i + 1;
    }
    assert emails[..i] == emails && fails[..i] == fails;
    service.Disconnect();
    return Ok(processed);
  }
}
