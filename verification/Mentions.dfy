/** Mention tags in decrypted HTML (node/src/mention-parser.ts). */
module Mentions {
  import opened Common

  const TAG := "<spark-mention"
  const TYPE_ATTR := "data-object-type=\""
  const ID_ATTR := "data-object-id=\""
  const GROUP_ATTR := "data-group-type=\""

  // ---- The regular expressions ----

  /** Case is ignored for ASCII letters only. */
  function Lower(c: char): char {
    if 'A' <= c <= 'Z' then c + 32 as char else c
  }

  predicate Starts(s: string, pat: string) {
    |pat| <= |s| && forall k :: 0 <= k < |pat| ==> Lower(s[k]) == pat[k]
  }

  /** The length up to the first `c`, or the whole length. */
  function Find(s: string, c: char): (n: nat)
    ensures n <= |s| && (n < |s| ==> s[n] == c) && forall i :: 0 <= i < n ==> s[i] != c
  {
    if s == "" || s[0] == c then 0 else 1 + Find(s[1..], c)
  }

  /** The length of the tag `s` begins with, if `/<spark-mention[^>]*>/i` matches there. */
  function TagLength(s: string): (r: Option<nat>)
    ensures r.Some? ==> 0 < r.value <= |s|
  {
    if Starts(s, TAG) && Find(s[|TAG|..], '>') < |s| - |TAG| then Some(|TAG| + Find(s[|TAG|..], '>') + 1) else None
  }

  /** All matches, left to right, each search going on where the last match ended. */
  function Tags(s: string): seq<string>
    decreases |s|
  {
    if s == "" then []
    else if TagLength(s).Some? then [s[..TagLength(s).value]] + Tags(s[TagLength(s).value..])
    else Tags(s[1..])
  }

  /** `/pat([^"]*)"/i`: the value at the leftmost match. */
  function Attr(s: string, pat: string): Option<string> {
    if Starts(s, pat) && Find(s[|pat|..], '"') < |s| - |pat| then Some(s[|pat|..][..Find(s[|pat|..], '"')])
    else if s == "" then None
    else Attr(s[1..], pat)
  }

  function LowerAll(s: string): (r: string)
    ensures |r| == |s| && forall i :: 0 <= i < |s| ==> r[i] == Lower(s[i])
  {
    seq(|s|, i requires 0 <= i < |s| => Lower(s[i]))
  }

  /** Upper and lower case are one: texts that differ in nothing else match the same patterns. */
  lemma CaseIsIgnored(s: string, t: string, pat: string)
    requires LowerAll(s) == LowerAll(t)
    ensures Starts(s, pat) <==> Starts(t, pat)
    ensures LowerAll("<SPARK-Mention") == "<spark-mention"
  {
    assert forall i :: 0 <= i < |s| ==> Lower(s[i]) == LowerAll(s)[i] == LowerAll(t)[i] == Lower(t[i]);
  }

  /** `pat([^"]*)"` matches at `i`, with `v` in its group. */
  ghost predicate AttrAtIs(s: string, pat: string, i: nat, v: string) {
    && i + |pat| + |v| < |s| && Starts(s[i..], pat)
    && s[i + |pat|..i + |pat| + |v|] == v && '"' !in v && s[i + |pat| + |v|] == '"'
  }

  ghost predicate AttrMatches(s: string, pat: string, i: nat) {
    exists v :: AttrAtIs(s, pat, i, v)
  }

  lemma AttrAtZero(s: string, pat: string, v: string)
    ensures AttrAtIs(s, pat, 0, v) <==>
              Starts(s, pat) && Find(s[|pat|..], '"') < |s| - |pat| && v == s[|pat|..][..Find(s[|pat|..], '"')]
  {
    assert s[0..] == s;
    if Starts(s, pat) {
      var rest := s[|pat|..];
      if AttrAtIs(s, pat, 0, v) {
        assert rest[|v|] == '"' && forall i :: 0 <= i < |v| ==> rest[i] == v[i];
        assert Find(rest, '"') == |v|;
        assert rest[..|v|] == v;
      }
      if Find(rest, '"') < |rest| && v == rest[..Find(rest, '"')] {
        assert s[|pat| + |v|] == rest[|v|];
        assert s[0 + |pat|..0 + |pat| + |v|] == v;
      }
    }
  }

  lemma AttrLater(s: string, pat: string, i: nat, v: string)
    requires s != ""
    ensures AttrAtIs(s, pat, i + 1, v) <==> AttrAtIs(s[1..], pat, i, v)
  {
    if i + 1 + |pat| + |v| < |s| {
      assert s[i + 1..] == s[1..][i..];
      assert s[i + 1 + |pat|..i + 1 + |pat| + |v|] == s[1..][i + |pat|..i + |pat| + |v|];
    }
  }

  lemma AttrNow(s: string, pat: string, u: string, v: string)
    requires AttrAtIs(s, pat, 0, u)
    ensures Attr(s, pat) == Some(u)
    ensures u == v <==> exists i: nat :: Leftmost(s, pat, i, v)
  {
    AttrAtZero(s, pat, u);
    AttrAtZero(s, pat, v);
    assert AttrMatches(s, pat, 0);
    assert Leftmost(s, pat, 0, u);
    forall i: nat | Leftmost(s, pat, i, v)
      ensures i == 0
    {
      assert !(0 < i);
    }
  }

  lemma AttrNotNow(s: string, pat: string)
    requires s != "" && !AttrMatches(s, pat, 0)
    ensures Attr(s, pat) == Attr(s[1..], pat)
  {
    if Starts(s, pat) && Find(s[|pat|..], '"') < |s| - |pat| {
      AttrAtZero(s, pat, s[|pat|..][..Find(s[|pat|..], '"')]);
    }
  }

  /** An attribute's value is the one of the leftmost match, if there is any. */
  lemma {:induction false} AttrIff(s: string, pat: string, v: string)
    requires pat != ""
    ensures Attr(s, pat) == Some(v) <==> exists i: nat :: Leftmost(s, pat, i, v)
  {
    if AttrMatches(s, pat, 0) {
      var u :| AttrAtIs(s, pat, 0, u);
      AttrNow(s, pat, u, v);
    } else if s != "" {
      AttrNotNow(s, pat);
      AttrIff(s[1..], pat, v);
      ShiftedIff(s, pat, v);
    }
  }

  ghost predicate Leftmost(s: string, pat: string, i: nat, v: string) {
    AttrAtIs(s, pat, i, v) && forall j: nat :: j < i ==> !AttrMatches(s, pat, j)
  }

  /** A leftmost match of the rest is one of the whole, if nothing matches at its start. */
  lemma ShiftedIff(s: string, pat: string, v: string)
    requires s != ""
    ensures !AttrMatches(s, pat, 0) ==>
              ((exists i: nat :: Leftmost(s[1..], pat, i, v)) <==> (exists i: nat :: Leftmost(s, pat, i, v)))
  {
    if !AttrMatches(s, pat, 0) {
      if i: nat :| Leftmost(s[1..], pat, i, v) {
        AttrLater(s, pat, i, v);
        forall j: nat | j < i + 1
          ensures !AttrMatches(s, pat, j)
        {
          if j > 0 {
            NoMatchLater(s, pat, j - 1);
          }
        }
        assert Leftmost(s, pat, i + 1, v);
      }
      if i: nat :| Leftmost(s, pat, i, v) {
        AttrLater(s, pat, i - 1, v);
        forall j: nat | j < i - 1
          ensures !AttrMatches(s[1..], pat, j)
        {
          NoMatchLater(s, pat, j);
        }
        assert Leftmost(s[1..], pat, i - 1, v);
      }
    }
  }

  lemma NoMatchLater(s: string, pat: string, j: nat)
    requires s != ""
    ensures AttrMatches(s, pat, j + 1) <==> AttrMatches(s[1..], pat, j)
  {
    var k := j + 1;
    if AttrMatches(s, pat, k) {
      var v :| AttrAtIs(s, pat, k, v);
      AttrLater(s, pat, j, v);
      assert AttrAtIs(s[1..], pat, j, v);
    }
    if AttrMatches(s[1..], pat, j) {
      var v :| AttrAtIs(s[1..], pat, j, v);
      AttrLater(s, pat, j, v);
      assert AttrAtIs(s, pat, k, v);
    }
  }

  /** A tag matches with length `n` iff it begins right and `n` is just past its first '>'. */
  lemma TagLengthIff(s: string, n: nat)
    ensures TagLength(s) == Some(n) <==>
              Starts(s, "<spark-mention") && 15 <= n <= |s| && s[n - 1] == '>' && '>' !in s[14..n - 1]
  {
    assert |TAG| == 14;
    if Starts(s, TAG) {
      var rest := s[14..];
      if 15 <= n <= |s| && s[n - 1] == '>' && '>' !in s[14..n - 1] {
        assert rest[n - 15] == '>' && forall i :: 0 <= i < n - 15 ==> rest[i] == s[14..n - 1][i];
        assert Find(rest, '>') == n - 15;
      }
      if Find(rest, '>') < |rest| && n == 14 + Find(rest, '>') + 1 {
        assert forall i :: 0 <= i < n - 15 ==> s[14..n - 1][i] == rest[i];
      }
    }
  }

  ghost predicate NoTagBefore(s: string, i: nat)
    requires i <= |s|
  {
    forall j :: 0 <= j < i ==> TagLength(s[j..]).None?
  }

  lemma NoTagTail(s: string, i: nat)
    requires 0 < i <= |s| && NoTagBefore(s, i)
    ensures NoTagBefore(s[1..], i - 1) && TagLength(s).None?
  {
    assert s[0..] == s;
    forall j | 0 <= j < i - 1
      ensures TagLength(s[1..][j..]).None?
    {
      assert s[1..][j..] == s[j + 1..];
    }
  }

  lemma {:induction false} TagsSkip(s: string, i: nat)
    requires i <= |s| && NoTagBefore(s, i)
    ensures Tags(s) == Tags(s[i..])
  {
    if i == 0 {
      assert s[0..] == s;
    } else {
      NoTagTail(s, i);
      TagsSkip(s[1..], i - 1);
      assert s[1..][i - 1..] == s[i..];
    }
  }

  /** The first tag is the leftmost match, and the search goes on where it ends; without a match there is none. */
  lemma TagsAre(s: string, i: nat)
    requires i <= |s| && NoTagBefore(s, i)
    ensures i < |s| && TagLength(s[i..]).Some? ==>
              var n := TagLength(s[i..]).value; Tags(s) == [s[i..][..n]] + Tags(s[i..][n..])
    ensures i == |s| ==> Tags(s) == []
  {
    TagsSkip(s, i);
  }

  // ---- Collecting ----

  datatype Mention = Person(id: string) | Group(kind: string)

  function Text(o: Option<string>): string {
    if o.Some? then o.value else ""
  }

  /** What one tag mentions, if anything. */
  function Classify(tag: string): Option<Mention> {
    var objectType := Text(Attr(tag, TYPE_ATTR));
    if objectType == "person" then
      if Text(Attr(tag, ID_ATTR)) == "" then None else Some(Person(Attr(tag, ID_ATTR).value))
    else if objectType == "groupMention" then
      if Text(Attr(tag, GROUP_ATTR)) == "" then None else Some(Group(Attr(tag, GROUP_ATTR).value))
    else None
  }

  /** What a tag mentions, by its attributes alone. */
  lemma ClassifyIff(tag: string, v: string)
    ensures Classify(tag) == Some(Person(v)) <==>
              Attr(tag, "data-object-type=\"") == Some("person") && Attr(tag, "data-object-id=\"") == Some(v) && v != ""
    ensures Classify(tag) == Some(Group(v)) <==>
              Attr(tag, "data-object-type=\"") == Some("groupMention") && Attr(tag, "data-group-type=\"") == Some(v) && v != ""
  {
  }

  datatype Parsed = Parsed(seen: set<string>, people: seq<string>, groups: seq<string>)

  const NOTHING: Parsed := Parsed({}, [], [])

  /** Both kinds share one seen set; groups enter it under a prefix. */
  function Note(p: Parsed, m: Mention): Parsed {
    match m
    case Person(id) => if id in p.seen then p else p.(seen := p.seen + {id}, people := p.people + [id])
    case Group(kind) =>
      if "group:" + kind in p.seen then p
      else p.(seen := p.seen + {"group:" + kind}, groups := p.groups + [kind])
  }

  function Mentioned(tags: seq<string>): seq<Mention> {
    if tags == [] then []
    else
      var front, last := Mentioned(tags[..|tags| - 1]), Classify(tags[|tags| - 1]);
      if last.Some? then front + [last.value] else front
  }

  function Collect(ms: seq<Mention>): Parsed {
    if ms == [] then NOTHING else Note(Collect(ms[..|ms| - 1]), ms[|ms| - 1])
  }

  function Parse(html: string): Parsed {
    Collect(Mentioned(Tags(html)))
  }

  lemma MentionedAppend(tags: seq<string>, tag: string)
    ensures Mentioned(tags + [tag]) == Mentioned(tags) + if Classify(tag).Some? then [Classify(tag).value] else []
  {
    assert (tags + [tag])[..|tags|] == tags;
  }

  lemma CollectAppend(ms: seq<Mention>, m: Mention)
    ensures Collect(ms + [m]) == Note(Collect(ms), m)
  {
    assert (ms + [m])[..|ms|] == ms;
  }

  function NoteTag(p: Parsed, tag: string): Parsed {
    if Classify(tag).Some? then Note(p, Classify(tag).value) else p
  }

  lemma NextTag(tags: seq<string>, tag: string)
    ensures Collect(Mentioned(tags + [tag])) == NoteTag(Collect(Mentioned(tags)), tag)
  {
    MentionedAppend(tags, tag);
    if Classify(tag).Some? {
      CollectAppend(Mentioned(tags), Classify(tag).value);
    } else {
      assert Mentioned(tags) + [] == Mentioned(tags);
    }
  }

  /** The body of the loop: one tag. */
  method AddTag(tag: string, seen: set<string>, people: seq<string>, groups: seq<string>)
    returns (seen': set<string>, people': seq<string>, groups': seq<string>)
    ensures Parsed(seen', people', groups') == NoteTag(Parsed(seen, people, groups), tag)
  {
    seen', people', groups' := seen, people, groups;
    var objectType := Text(Attr(tag, TYPE_ATTR));
    if objectType == "person" {
      var id := Text(Attr(tag, ID_ATTR));
      if id != "" && id !in seen {
        seen', people' := seen + {id}, people + [id];
      }
    } else if objectType == "groupMention" {
      var kind := Text(Attr(tag, GROUP_ATTR));
      if kind != "" && "group:" + kind !in seen {
        seen', groups' := seen + {"group:" + kind}, groups + [kind];
      }
    }
  }

  /** What a scan has gathered when it stands at `pos`: the mentions of the tags before. */
  ghost predicate Gathered(s: string, pos: nat, done: seq<string>, p: Parsed) {
    pos <= |s| && Tags(s) == done + Tags(s[pos..]) && p == Collect(Mentioned(done))
  }

  /** `parseMentions`: the regex loop with its seen set and two result arrays. */
  method ParseMentions(html: Option<string>) returns (people: seq<string>, groups: seq<string>)
    ensures people == Parse(Text(html)).people && groups == Parse(Text(html)).groups
  {
    people, groups := [], [];
    if html.None? || html.value == "" {
      assert Mentioned([]) == [];
      return;
    }
    var s, seen, pos: nat := html.value, {}, 0;
    ghost var done: seq<string> := [];
    Begin(s);
    while pos < |s|
      invariant Gathered(s, pos, done, Parsed(seen, people, groups))
      decreases |s| - pos
    {
      var length := TagLength(s[pos..]);
      if length.None? {
        Skip(s, pos, done, Parsed(seen, people, groups));
        pos := pos + 1;
      } else {
        var tag := s[pos..][..length.value];
        TagsFrom(s, pos);
        Consume(s, pos, length.value, tag, done, Parsed(seen, people, groups));
        seen, people, groups := AddTag(tag, seen, people, groups);
        done := done + [tag];
        pos := pos + length.value;
      }
    }
    End(s, done, Parsed(seen, people, groups));
  }

  lemma Begin(s: string)
    ensures Gathered(s, 0, [], NOTHING)
  {
    assert s[0..] == s && [] + Tags(s) == Tags(s) && Mentioned([]) == [];
  }

  lemma Skip(s: string, pos: nat, done: seq<string>, p: Parsed)
    requires Gathered(s, pos, done, p) && pos < |s| && TagLength(s[pos..]).None?
    ensures Gathered(s, pos + 1, done, p)
  {
    assert s[pos..][1..] == s[pos + 1..];
  }

  lemma Consume(s: string, pos: nat, n: nat, tag: string, done: seq<string>, p: Parsed)
    requires Gathered(s, pos, done, p) && pos + n <= |s| && Tags(s[pos..]) == [tag] + Tags(s[pos + n..])
    ensures Gathered(s, pos + n, done + [tag], NoteTag(p, tag))
  {
    NextTag(done, tag);
    Reassociate(done, tag, Tags(s[pos + n..]));
  }

  lemma TagsFrom(s: string, pos: nat)
    requires pos < |s| && TagLength(s[pos..]).Some?
    ensures var n := TagLength(s[pos..]).value; Tags(s[pos..]) == [s[pos..][..n]] + Tags(s[pos + n..])
  {
    assert s[pos..][TagLength(s[pos..]).value..] == s[pos + TagLength(s[pos..]).value..];
  }

  lemma Reassociate(done: seq<string>, tag: string, rest: seq<string>)
    ensures done + ([tag] + rest) == (done + [tag]) + rest
  {
  }

  lemma End(s: string, done: seq<string>, p: Parsed)
    requires Gathered(s, |s|, done, p)
    ensures p == Parse(s)
  {
    assert s[|s|..] == "" && done + [] == done;
  }

  // ---- First occurrences ----

  /** The reference: each value once, where it first occurs. */
  function Dedupe(xs: seq<string>): (r: seq<string>)
    ensures forall x :: x in r <==> x in xs
  {
    if xs == [] then []
    else
      var front, last := xs[..|xs| - 1], xs[|xs| - 1];
      if last in front then Dedupe(front) else Dedupe(front) + [last]
  }

  function People(ms: seq<Mention>): seq<string> {
    if ms == [] then []
    else People(ms[..|ms| - 1]) + if ms[|ms| - 1].Person? then [ms[|ms| - 1].id] else []
  }

  function Groups(ms: seq<Mention>): seq<string> {
    if ms == [] then []
    else Groups(ms[..|ms| - 1]) + if ms[|ms| - 1].Group? then [ms[|ms| - 1].kind] else []
  }

  /** A person id and a group kind that meet in the seen set. */
  ghost predicate Clash(ms: seq<Mention>) {
    exists g :: g in Groups(ms) && "group:" + g in People(ms)
  }

  ghost predicate SeenExactly(p: Parsed, ms: seq<Mention>) {
    forall x :: x in p.seen <==> x in People(ms) || (exists g :: g in Groups(ms) && x == "group:" + g)
  }

  lemma {:induction false} SeenIs(ms: seq<Mention>)
    ensures SeenExactly(Collect(ms), ms)
  {
    if ms != [] {
      SeenIs(ms[..|ms| - 1]);
      var m := ms[|ms| - 1];
      if m.Group? {
        assert m.kind in Groups(ms);
      }
    }
  }

  lemma SamePrefix(g: string, h: string)
    requires "group:" + g == "group:" + h
    ensures g == h
  {
    assert ("group:" + g)[6..] == g && ("group:" + h)[6..] == h;
  }

  lemma DedupeAppend(xs: seq<string>, x: string)
    ensures Dedupe(xs + [x]) == if x in xs then Dedupe(xs) else Dedupe(xs) + [x]
  {
    assert (xs + [x])[..|xs|] == xs;
  }

  ghost predicate Deduped(p: Parsed, ms: seq<Mention>) {
    p.people == Dedupe(People(ms)) && p.groups == Dedupe(Groups(ms))
  }

  lemma {:induction false} NotePerson(ms: seq<Mention>, id: string)
    requires Deduped(Collect(ms), ms) && SeenExactly(Collect(ms), ms)
    requires forall g :: g in Groups(ms) ==> "group:" + g != id
    ensures Deduped(Note(Collect(ms), Person(id)), ms + [Person(id)])
  {
    assert (ms + [Person(id)])[..|ms|] == ms;
    assert id in Collect(ms).seen <==> id in People(ms);
    assert Groups(ms + [Person(id)]) == Groups(ms);
    DedupeAppend(People(ms), id);
  }

  lemma {:induction false} NoteGroup(ms: seq<Mention>, kind: string)
    requires Deduped(Collect(ms), ms) && SeenExactly(Collect(ms), ms) && "group:" + kind !in People(ms)
    ensures Deduped(Note(Collect(ms), Group(kind)), ms + [Group(kind)])
  {
    assert (ms + [Group(kind)])[..|ms|] == ms;
    assert People(ms + [Group(kind)]) == People(ms);
    GroupSeen(ms, kind);
    DedupeAppend(Groups(ms), kind);
  }

  lemma {:induction false} NoClashDedupes(ms: seq<Mention>)
    requires !Clash(ms)
    ensures Deduped(Collect(ms), ms)
  {
    if ms != [] {
      var front, m := ms[..|ms| - 1], ms[|ms| - 1];
      assert ms == front + [m];
      assert forall g :: g in Groups(front) ==> g in Groups(ms);
      assert forall x :: x in People(front) ==> x in People(ms);
      NoClashDedupes(front);
      SeenIs(front);
      match m
      case Person(id) =>
        assert id in People(ms);
        NotePerson(front, id);
      case Group(kind) =>
        assert kind in Groups(ms);
        NoteGroup(front, kind);
    }
  }

  lemma GroupSeen(front: seq<Mention>, kind: string)
    requires SeenExactly(Collect(front), front) && "group:" + kind !in People(front)
    ensures "group:" + kind in Collect(front).seen <==> kind in Groups(front)
  {
    forall g | g in Groups(front) && "group:" + kind == "group:" + g
      ensures g == kind
    {
      SamePrefix(kind, g);
    }
  }

  lemma {:induction false} NeverBoth(ms: seq<Mention>, g: string)
    ensures !(g in Collect(ms).groups && "group:" + g in Collect(ms).people)
    ensures g in Collect(ms).groups || "group:" + g in Collect(ms).people ==> "group:" + g in Collect(ms).seen
  {
    if ms != [] {
      NeverBoth(ms[..|ms| - 1], g);
      if ms[|ms| - 1].Group? && "group:" + ms[|ms| - 1].kind == "group:" + g {
        SamePrefix(ms[|ms| - 1].kind, g);
      }
    }
  }

  /** The result is the two dedupes exactly when no person id is "group:" and a mentioned group's kind. */
  lemma {:induction false} DedupesIff(ms: seq<Mention>)
    ensures Deduped(Collect(ms), ms) <==> !Clash(ms)
  {
    if Clash(ms) {
      var g :| g in Groups(ms) && "group:" + g in People(ms);
      NeverBoth(ms, g);
    } else {
      NoClashDedupes(ms);
    }
  }

  // ---- Parsing what was printed ----

  /** A mention, its attribute order, its name, and the text that follows it. */
  datatype Piece = Piece(mention: Mention, typeFirst: bool, name: string, text: string)

  function TypeName(m: Mention): string {
    if m.Person? then "person" else "groupMention"
  }

  function ValueAttr(m: Mention): string {
    if m.Person? then ID_ATTR else GROUP_ATTR
  }

  function ValueOf(m: Mention): string {
    if m.Person? then m.id else m.kind
  }

  const BLANK := "<spark-mention "

  /** name="value" */
  function Attribute(attr: string, v: string, rest: string): string {
    attr + v + "\"" + rest
  }

  function OpenTag(m: Mention, typeFirst: bool): string {
    if typeFirst then BLANK + Attribute(TYPE_ATTR, TypeName(m), " " + Attribute(ValueAttr(m), ValueOf(m), ">"))
    else BLANK + Attribute(ValueAttr(m), ValueOf(m), " " + Attribute(TYPE_ATTR, TypeName(m), ">"))
  }

  function Print(ps: seq<Piece>): string {
    if ps == [] then ""
    else OpenTag(ps[0].mention, ps[0].typeFirst) + (ps[0].name + "</spark-mention>" + ps[0].text) + Print(ps[1..])
  }

  predicate Plain(p: Piece) {
    && '<' !in p.name && '<' !in p.text
    && '"' !in ValueOf(p.mention) && '>' !in ValueOf(p.mention) && '=' !in ValueOf(p.mention)
  }

  /** No tag can start here: every '<' is followed by a slash. */
  ghost predicate Quiet(s: string) {
    forall i :: 0 <= i < |s| && s[i] == '<' ==> i + 1 < |s| && s[i + 1] == '/'
  }

  lemma {:induction false} SkipQuiet(junk: string, rest: string)
    requires Quiet(junk)
    ensures Tags(junk + rest) == Tags(rest)
  {
    if junk == "" {
      assert junk + rest == rest;
    } else {
      var s := junk + rest;
      assert s[1..] == junk[1..] + rest;
      assert TAG[0] == '<' && TAG[1] == 's';
      assert s[0] == '<' ==> s[1] == '/';
      assert !Starts(s, TAG);
      assert forall i :: 0 <= i < |junk[1..]| ==> junk[1..][i] == junk[i + 1];
      SkipQuiet(junk[1..], rest);
    }
  }

  lemma TakeTag(tag: string, rest: string)
    requires |tag| > |TAG| && tag[..|TAG|] == TAG && tag[|tag| - 1] == '>' && '>' !in tag[..|tag| - 1]
    ensures Tags(tag + rest) == [tag] + Tags(rest)
  {
    var s := tag + rest;
    var n := Find(s[|TAG|..], '>');
    assert s[..|TAG|] == TAG;
    assert forall k :: 0 <= k < |TAG| ==> s[k] == TAG[k];
    assert Starts(s, TAG);
    assert forall i :: |TAG| <= i < |tag| - 1 ==> s[i] == tag[..|tag| - 1][i];
    assert s[|TAG|..][|tag| - 1 - |TAG|] == '>';
    assert n == |tag| - 1 - |TAG|;
    assert s[..|tag|] == tag && s[|tag|..] == rest;
  }

  lemma {:induction false} AttrSkip(pre: string, s: string, pat: string)
    requires forall i :: 0 <= i < |pre| ==> !Starts(pre[i..] + s, pat)
    ensures Attr(pre + s, pat) == Attr(s, pat)
  {
    if pre == "" {
      assert pre + s == s;
    } else {
      assert pre[0..] + s == pre + s;
      assert (pre + s)[1..] == pre[1..] + s;
      assert forall i :: 0 <= i < |pre[1..]| ==> pre[1..][i..] == pre[i + 1..];
      AttrSkip(pre[1..], s, pat);
    }
  }

  lemma AttrHere(pat: string, v: string, rest: string)
    requires '"' !in v && Starts(pat, pat)
    ensures Attr(pat + v + "\"" + rest, pat) == Some(v)
  {
    var s := pat + v + "\"" + rest;
    assert s[|pat|..] == v + "\"" + rest;
    assert s[|pat|..][|v|] == '"';
    assert forall i :: 0 <= i < |v| ==> s[|pat|..][i] == v[i];
    assert Find(s[|pat|..], '"') == |v|;
    assert s[|pat|..][..|v|] == v;
  }

  ghost predicate NoD(s: string) {
    forall i :: 0 <= i < |s| ==> Lower(s[i]) != 'd'
  }

  /** Text without a 'd' starts no attribute. */
  lemma SkipNoD(pre: string, s: string, pat: string)
    requires NoD(pre) && pat != "" && pat[0] == 'd'
    ensures Attr(pre + s, pat) == Attr(s, pat)
  {
    assert forall i :: 0 <= i < |pre| ==> (pre[i..] + s)[0] == pre[i];
    AttrSkip(pre, s, pat);
  }

  lemma FixedTextHasNoD(m: Mention)
    ensures NoD(BLANK) && NoD(TYPE_ATTR[1..]) && NoD(TypeName(m) + "\"" + " ")
  {
    assert TYPE_ATTR[1..] == "ata-object-type=\"";
    assert "person" + "\"" + " " == "person\" ";
    assert "groupMention" + "\"" + " " == "groupMention\" ";
  }

  /** A type attribute is not the start of a value attribute. */
  lemma TypeIsNotValue(m: Mention, s: string)
    ensures !Starts(TYPE_ATTR + s, ValueAttr(m))
  {
    assert (TYPE_ATTR + s)[12] == 't' && (TYPE_ATTR + s)[5] == 'o';
    assert ID_ATTR[12] == 'i' && GROUP_ATTR[5] == 'g';
  }

  /** In the text up to a value, '=' stands only before the quote, and no 'd' 16 places before it. */
  ghost predicate ValueHead(head: string) {
    && |head| >= 18 && Lower(head[|head| - 18]) != 'd'
    && forall j :: 0 <= j < |head| && j != |head| - 2 ==> head[j] != '='
  }

  lemma ValueHeads()
    ensures ValueHead(BLANK + ID_ATTR) && ValueHead(BLANK + GROUP_ATTR)
  {
    assert BLANK + ID_ATTR == "<spark-mention data-object-id=\"";
    assert BLANK + GROUP_ATTR == "<spark-mention data-group-type=\"";
  }

  /** After a value without '=', the type attribute is the first of its name: its '=' fits nowhere else. */
  lemma ValueHidesNoType(head: string, v: string, s: string)
    requires ValueHead(head) && '=' !in v
    ensures var pre := head + v + "\"" + " ";
            forall i :: 0 <= i < |pre| ==> !Starts(pre[i..] + (TYPE_ATTR + s), TYPE_ATTR)
  {
    var pre := head + v + "\"" + " ";
    TypeEquals();
    forall i | 0 <= i < |pre|
      ensures !Starts(pre[i..] + (TYPE_ATTR + s), TYPE_ATTR)
    {
      var x := pre[i..] + (TYPE_ATTR + s);
      assert x[0] == pre[i];
      if i + 16 == |head| - 2 {
        assert pre[i] == head[i];
      } else if i + 16 < |pre| {
        assert x[16] == pre[i + 16];
        assert pre[i + 16] != '=';
      } else {
        assert x[16] == TYPE_ATTR[i + 16 - |pre|];
      }
    }
  }

  lemma TypeEquals()
    ensures |TYPE_ATTR| == 18 && TYPE_ATTR[0] == 'd' && TYPE_ATTR[16] == '='
    ensures forall j :: 0 <= j < 16 ==> TYPE_ATTR[j] != '='
  {
  }

  lemma AttrAt(pre: string, pat: string, v: string, rest: string)
    requires '"' !in v && Starts(pat, pat)
    requires forall i :: 0 <= i < |pre| ==> !Starts(pre[i..] + Attribute(pat, v, rest), pat)
    ensures Attr(pre + Attribute(pat, v, rest), pat) == Some(v)
  {
    AttrSkip(pre, Attribute(pat, v, rest), pat);
    AttrHere(pat, v, rest);
  }

  lemma Regroup(a: string, b: string, c: string, t: string)
    ensures a + Attribute(b, c, " " + t) == (a + b + c + "\"" + " ") + t
  {
  }

  lemma LowerCase()
    ensures Starts(TYPE_ATTR, TYPE_ATTR) && Starts(ID_ATTR, ID_ATTR) && Starts(GROUP_ATTR, GROUP_ATTR)
  {
  }

  /** The first attribute of a printed tag is found ... */
  lemma FirstAttr(attr: string, v: string, rest: string)
    requires '"' !in v && Starts(attr, attr) && attr != "" && attr[0] == 'd'
    ensures Attr(BLANK + Attribute(attr, v, rest), attr) == Some(v)
  {
    FixedTextHasNoD(Person(""));
    SkipNoD(BLANK, Attribute(attr, v, rest), attr);
    AttrHere(attr, v, rest);
  }

  /** ... and so is the second, in either order. */
  lemma ValueSecond(m: Mention)
    requires '"' !in ValueOf(m)
    ensures Attr(OpenTag(m, true), ValueAttr(m)) == Some(ValueOf(m))
  {
    var t, attr, mid := Attribute(ValueAttr(m), ValueOf(m), ">"), ValueAttr(m), TypeName(m) + "\"" + " ";
    RegroupType(TypeName(m), t);
    FixedTextHasNoD(m);
    LowerCase();
    SkipNoD(BLANK, TYPE_ATTR + (mid + t), attr);
    TypeIsNotValue(m, mid + t);
    SkipType(mid + t, attr);
    SkipNoD(mid, t, attr);
    AttrHere(attr, ValueOf(m), ">");
  }

  lemma RegroupType(name: string, t: string)
    ensures Attribute(TYPE_ATTR, name, " " + t) == TYPE_ATTR + ((name + "\"" + " ") + t)
  {
  }

  lemma SkipType(rest: string, pat: string)
    requires !Starts(TYPE_ATTR + rest, pat) && pat != "" && pat[0] == 'd'
    ensures Attr(TYPE_ATTR + rest, pat) == Attr(rest, pat)
  {
    FixedTextHasNoD(Person(""));
    assert (TYPE_ATTR + rest)[1..] == TYPE_ATTR[1..] + rest;
    SkipNoD(TYPE_ATTR[1..], rest, pat);
  }

  lemma TypeSecond(m: Mention)
    requires '=' !in ValueOf(m)
    ensures Attr(OpenTag(m, false), TYPE_ATTR) == Some(TypeName(m))
  {
    var t := Attribute(TYPE_ATTR, TypeName(m), ">");
    Regroup(BLANK, ValueAttr(m), ValueOf(m), t);
    ValueHeads();
    ValueHidesNoType(BLANK + ValueAttr(m), ValueOf(m), TypeName(m) + "\"" + ">");
    assert t == TYPE_ATTR + (TypeName(m) + "\"" + ">");
    LowerCase();
    AttrAt(BLANK + ValueAttr(m) + ValueOf(m) + "\"" + " ", TYPE_ATTR, TypeName(m), ">");
  }

  lemma ClassifyPrinted(m: Mention, typeFirst: bool)
    requires '"' !in ValueOf(m) && '=' !in ValueOf(m)
    ensures Classify(OpenTag(m, typeFirst)) == if ValueOf(m) == "" then None else Some(m)
  {
    LowerCase();
    assert '"' !in TypeName(m);
    if typeFirst {
      FirstAttr(TYPE_ATTR, TypeName(m), " " + Attribute(ValueAttr(m), ValueOf(m), ">"));
      ValueSecond(m);
    } else {
      FirstAttr(ValueAttr(m), ValueOf(m), " " + Attribute(TYPE_ATTR, TypeName(m), ">"));
      TypeSecond(m);
    }
  }

  // ---- The whole text ----

  function OpenTags(ps: seq<Piece>): seq<string> {
    if ps == [] then [] else [OpenTag(ps[0].mention, ps[0].typeFirst)] + OpenTags(ps[1..])
  }

  /** The mentions with a non-empty value, in order. */
  function Named(ps: seq<Piece>): seq<Mention> {
    if ps == [] then []
    else Named(ps[..|ps| - 1]) + if ValueOf(ps[|ps| - 1].mention) == "" then [] else [ps[|ps| - 1].mention]
  }

  lemma OpenTagShape(m: Mention, typeFirst: bool)
    requires '>' !in ValueOf(m)
    ensures var tag := OpenTag(m, typeFirst);
            |tag| > |TAG| && tag[..|TAG|] == TAG && tag[|tag| - 1] == '>' && '>' !in tag[..|tag| - 1]
  {
    assert '>' !in TYPE_ATTR && '>' !in TypeName(m) && '>' !in ValueAttr(m);
    if typeFirst {
      TagShape(TYPE_ATTR, TypeName(m), ValueAttr(m), ValueOf(m));
    } else {
      TagShape(ValueAttr(m), ValueOf(m), TYPE_ATTR, TypeName(m));
    }
  }

  lemma TagShape(a: string, v: string, b: string, w: string)
    requires '>' !in a && '>' !in v && '>' !in b && '>' !in w
    ensures var tag := BLANK + Attribute(a, v, " " + Attribute(b, w, ">"));
            |tag| > |TAG| && tag[..|TAG|] == TAG && tag[|tag| - 1] == '>' && '>' !in tag[..|tag| - 1]
  {
    var tag := BLANK + Attribute(a, v, " " + Attribute(b, w, ">"));
    var body := BLANK + (a + v + "\"" + (" " + (b + w + "\"")));
    assert BLANK[..|TAG|] == TAG && '>' !in BLANK && '>' !in "\"" && '>' !in " ";
    assert '>' !in body;
    assert tag == body + ">";
    assert tag[..|tag| - 1] == body;
    assert body[..|TAG|] == TAG;
  }

  lemma {:induction false} TagsOfPrint(ps: seq<Piece>)
    requires forall i :: 0 <= i < |ps| ==> Plain(ps[i])
    ensures Tags(Print(ps)) == OpenTags(ps)
  {
    if ps != [] {
      var p := ps[0];
      var tag, junk, rest := OpenTag(p.mention, p.typeFirst), p.name + "</spark-mention>" + p.text, Print(ps[1..]);
      OpenTagShape(p.mention, p.typeFirst);
      assert tag + junk + rest == tag + (junk + rest);
      TakeTag(tag, junk + rest);
      JunkIsQuiet(p.name, p.text);
      SkipQuiet(junk, rest);
      TagsOfPrint(ps[1..]);
    }
  }

  lemma JunkIsQuiet(name: string, text: string)
    requires '<' !in name && '<' !in text
    ensures Quiet(name + "</spark-mention>" + text)
  {
    var close := "</spark-mention>";
    var s := name + close + text;
    forall i | 0 <= i < |s| && s[i] == '<'
      ensures i + 1 < |s| && s[i + 1] == '/'
    {
      assert i >= |name|;
      assert i < |name| + |close| ==> s[i] == close[i - |name|];
      assert s[|name| + 1] == close[1];
    }
  }

  lemma {:induction false} OpenTagsLast(ps: seq<Piece>)
    requires ps != []
    ensures var last := ps[|ps| - 1];
            OpenTags(ps) == OpenTags(ps[..|ps| - 1]) + [OpenTag(last.mention, last.typeFirst)]
  {
    if |ps| > 1 {
      OpenTagsLast(ps[1..]);
      assert ps[1..][..|ps| - 2] == ps[..|ps| - 1][1..];
    }
  }

  lemma {:induction false} MentionedIsNamed(ps: seq<Piece>)
    requires forall i :: 0 <= i < |ps| ==> Plain(ps[i])
    ensures Mentioned(OpenTags(ps)) == Named(ps)
  {
    if ps != [] {
      var front, last := ps[..|ps| - 1], ps[|ps| - 1];
      MentionedIsNamed(front);
      OpenTagsLast(ps);
      ClassifyPrinted(last.mention, last.typeFirst);
      MentionedAppend(OpenTags(front), OpenTag(last.mention, last.typeFirst));
    }
  }

  lemma {:induction false} PrintedIsNamed(ps: seq<Piece>)
    requires forall i :: 0 <= i < |ps| ==> Plain(ps[i])
    ensures Parse(Print(ps)) == Collect(Named(ps))
  {
    TagsOfPrint(ps);
    MentionedIsNamed(ps);
  }

  /**
   * Parsing printed HTML gives the first occurrences of the person ids and of the
   * group kinds, in order, exactly when no person id is "group:" and a printed kind.
   */
  lemma {:induction false} ParsePrinted(text: string, ps: seq<Piece>)
    requires '<' !in text && forall i :: 0 <= i < |ps| ==> Plain(ps[i])
    ensures var r := Parse(text + Print(ps));
            (r.people == Dedupe(People(Named(ps))) && r.groups == Dedupe(Groups(Named(ps)))) <==> !Clash(Named(ps))
  {
    SkipQuiet(text, Print(ps));
    PrintedIsNamed(ps);
    DedupesIff(Named(ps));
  }

  /** Such a clash: after the group `kind`, a person whose id is "group:" and that kind is lost. */
  lemma ClashLosesAMention(kind: string, g: Piece, p: Piece)
    requires Plain(g) && Plain(p) && kind != ""
    requires g.mention == Group(kind) && p.mention == Person("group:" + kind)
    ensures var r := Parse(Print([g, p])); r.people == [] && r.groups == [kind]
  {
    PrintedIsNamed([g, p]);
    NamedPair(g, p);
    PairClashes(kind);
  }

  lemma NamedPair(g: Piece, p: Piece)
    requires ValueOf(g.mention) != "" && ValueOf(p.mention) != ""
    ensures Named([g, p]) == [g.mention, p.mention]
  {
    assert [g, p][..1] == [g] && [g][..0] == [];
    assert Named([g]) == [g.mention];
  }

  lemma NotedAlready(p: Parsed, kind: string)
    ensures var id := "group:" + kind; Note(Note(p, Group(kind)), Person(id)) == Note(p, Group(kind))
  {
    assert "group:" + kind in Note(p, Group(kind)).seen;
  }

  lemma PairClashes(kind: string)
    ensures var r := Collect([Group(kind), Person("group:" + kind)]); r.people == [] && r.groups == [kind]
  {
    NotedAlready(NOTHING, kind);
    CollectPair(Group(kind), Person("group:" + kind));
  }

  lemma CollectPair(m: Mention, n: Mention)
    ensures Collect([m, n]) == Note(Note(NOTHING, m), n)
  {
    assert [m, n][..1] == [m] && [m][..0] == [];
    assert Collect([m]) == Note(Collect([]), m);
  }
}
