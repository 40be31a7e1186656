/** Prompt templates: the `{{ path }}` tokens that `_render` substitutes. */
module Template {
  import opened Text

  /** A JSON value; a scalar keeps the text `str()` gives it. */
  datatype Value = Str(s: string) | Scalar(text: string) | ListOf(items: seq<Value>) | Obj(fields: map<string, Value>)

  /** A template read by the token expression: plain characters and dotted paths. */
  datatype Part = Plain(c: char) | Token(path: seq<string>)

  /** Rendered text; the JSON form of an object or list stays symbolic. */
  datatype Piece = Char(c: char) | Dump(v: Value)

  /** The length of the brace-free run a string starts with. */
  function BraceFree(s: string): (n: nat)
    ensures n <= |s|
  {
    if s == [] || s[0] == '{' || s[0] == '}' then 0 else 1 + BraceFree(s[1..])
  }

  /** Matches of `\{\{\s*([^{}]+?)\s*\}\}`, left to right, with everything between them. */
  function Parse(s: string): seq<Part>
    decreases |s|
  {
    if s == [] then []
    else if "{{" <= s && BraceFree(s[2..]) > 0 && "}}" <= s[2 + BraceFree(s[2..])..] then
      var n := BraceFree(s[2..]);
      [Token(Split(Strip(s[2..2 + n]), '.'))] + Parse(s[n + 4..])
    else [Plain(s[0])] + Parse(s[1..])
  }

  // ----- Writing a template -----

  function WritePart(part: Part): string {
    match part
    case Plain(c) => [c]
    case Token(path) => "{{" + Join(path, '.') + "}}"
  }

  function Write(parts: seq<Part>): string {
    if parts == [] then [] else WritePart(parts[0]) + Write(parts[1..])
  }

  /** Parts that a template text can spell: no braces between tokens, and trimmed paths of dotless names. */
  predicate Writable(part: Part) {
    match part
    case Plain(c) => c != '{' && c != '}'
    case Token(path) =>
      var text := Join(path, '.');
      && path != [] && (forall i :: 0 <= i < |path| ==> '.' !in path[i])
      && text != [] && '{' !in text && '}' !in text && !IsSpace(text[0]) && !IsSpace(text[|text| - 1])
  }

  lemma {:induction false} BraceFreeRun(s: string, rest: string)
    requires '{' !in s && '}' !in s && (rest == [] || rest[0] in "{}")
    ensures BraceFree(s + rest) == |s|
  {
    if s == [] {
      assert s + rest == rest;
    } else {
      assert (s + rest)[1..] == s[1..] + rest;
      BraceFreeRun(s[1..], rest);
    }
  }

  lemma TokenParses(path: seq<string>, rest: string)
    requires Writable(Token(path))
    ensures Parse(WritePart(Token(path)) + rest) == [Token(path)] + Parse(rest)
  {
    hide Split, Strip, BraceFree, Join;
    var text := Join(path, '.');
    var s := WritePart(Token(path)) + rest;
    var n := |text|;
    assert s == "{{" + text + "}}" + rest;
    assert s[2..] == text + ("}}" + rest);
    BraceFreeRun(text, "}}" + rest);
    assert s[2..2 + n] == text && s[2 + n..] == "}}" + rest && s[n + 4..] == rest;
    assert "{{" <= s && "}}" <= s[2 + n..];
    assert Strip(text) == text;
    SplitJoin(path, '.');
  }

  /** Every writable template reads back as the parts it was written from. */
  lemma {:induction false} WrittenTemplateParses(parts: seq<Part>)
    requires forall i :: 0 <= i < |parts| ==> Writable(parts[i])
    ensures Parse(Write(parts)) == parts
  {
    if parts != [] {
      hide Writable;
      WrittenTemplateParses(parts[1..]);
      var rest := Write(parts[1..]);
      if parts[0].Token? {
        TokenParses(parts[0].path, rest);
      } else {
        PlainParses(parts[0].c, rest);
      }
      assert [parts[0]] + parts[1..] == parts;
    }
  }

  lemma PlainParses(c: char, rest: string)
    requires Writable(Plain(c))
    ensures Parse(WritePart(Plain(c)) + rest) == [Plain(c)] + Parse(rest)
  {
    var s := [c] + rest;
    assert s[0] == c && s[1..] == rest;
    assert s[0] != "{{"[0];
  }

  // ----- What the pattern matches -----

  /** A stretch of template text: one character, or a token with everything between its braces. */
  datatype Stretch = OneChar(c: char) | Braced(raw: string)

  function Spelling(x: Stretch): string {
    match x
    case OneChar(c) => [c]
    case Braced(raw) => "{{" + raw + "}}"
  }

  function Spellings(xs: seq<Stretch>): string {
    if xs == [] then [] else Spelling(xs[0]) + Spellings(xs[1..])
  }

  function Meaning(x: Stretch): Part {
    match x
    case OneChar(c) => Plain(c)
    case Braced(raw) => Token(Split(Strip(raw), '.'))
  }

  predicate BracedRaw(raw: string) {
    raw != [] && '{' !in raw && '}' !in raw
  }

  /** The pattern matches at the start of the text. */
  ghost predicate TokenAt(s: string) {
    exists raw :: BracedRaw(raw) && "{{" + raw + "}}" <= s
  }

  /** Every token is a match, and no match starts at a plain character. */
  ghost predicate Leftmost(xs: seq<Stretch>) {
    forall i :: 0 <= i < |xs| ==> if xs[i].Braced? then BracedRaw(xs[i].raw) else !TokenAt(Spellings(xs[i..]))
  }

  lemma LeftmostNext(first: Stretch, others: seq<Stretch>, s: string)
    requires Leftmost(others) && s == Spellings([first] + others)
    requires if first.Braced? then BracedRaw(first.raw) else !TokenAt(s)
    ensures Leftmost([first] + others)
  {
    hide TokenAt, BracedRaw, Spellings;
    var xs := [first] + others;
    assert xs[0..] == xs;
    forall i | 0 <= i < |xs|
      ensures if xs[i].Braced? then BracedRaw(xs[i].raw) else !TokenAt(Spellings(xs[i..]))
    {
      if i > 0 {
        assert xs[i] == others[i - 1] && xs[i..] == others[i - 1..];
      }
    }
  }

  /**
   * For every text: the parts are those of the leftmost matches of the pattern and of the characters
   * between them. Nothing is lost, every token is a match, and no match starts at a plain character.
   */
  lemma {:induction false} ParseIsLeftmost(s: string) returns (xs: seq<Stretch>)
    ensures Spellings(xs) == s && |xs| == |Parse(s)| && Leftmost(xs)
    ensures forall i :: 0 <= i < |xs| ==> Parse(s)[i] == Meaning(xs[i])
    decreases |s|
  {
    if s == [] {
      xs := [];
    } else {
      hide Parse, TokenAt, BracedRaw, Meaning, Spelling, Leftmost;
      var first, rest := FirstStretch(s);
      var others := ParseIsLeftmost(rest);
      xs := [first] + others;
      assert xs[1..] == others;
      LeftmostNext(first, others, s);
    }
  }

  lemma FirstStretch(s: string) returns (first: Stretch, rest: string)
    requires s != []
    ensures s == Spelling(first) + rest && |rest| < |s| && Parse(s) == [Meaning(first)] + Parse(rest)
    ensures first.Braced? ==> BracedRaw(first.raw)
    ensures first.OneChar? <==> !TokenAt(s)
  {
    hide Split, Strip, TokenAt, BraceFree;
    var n := if "{{" <= s then BraceFree(s[2..]) else 0;
    if "{{" <= s && n > 0 && "}}" <= s[2 + n..] {
      NoBraceInside(s[2..]);
      assert s[2..2 + n] == s[2..][..n];
      first, rest := Braced(s[2..2 + n]), s[n + 4..];
      assert s == "{{" + s[2..2 + n] + "}}" + rest;
      TokenStarts(s, first.raw);
    } else {
      NoTokenHere(s);
      first, rest := OneChar(s[0]), s[1..];
    }
  }

  lemma {:induction false} NoBraceInside(s: string)
    ensures '{' !in s[..BraceFree(s)] && '}' !in s[..BraceFree(s)]
  {
    if s != [] && s[0] != '{' && s[0] != '}' {
      NoBraceInside(s[1..]);
      assert s[..BraceFree(s)] == [s[0]] + s[1..][..BraceFree(s[1..])];
    }
  }

  lemma NoTokenHere(s: string)
    requires !("{{" <= s && BraceFree(s[2..]) > 0 && "}}" <= s[2 + BraceFree(s[2..])..])
    ensures !TokenAt(s)
  {
    hide BraceFree;
    forall raw | BracedRaw(raw)
      ensures !("{{" + raw + "}}" <= s)
    {
      if "{{" + raw + "}}" <= s {
        MatchFound(s, raw);
      }
    }
  }

  lemma MatchFound(s: string, raw: string)
    requires BracedRaw(raw) && "{{" + raw + "}}" <= s
    ensures "{{" <= s && BraceFree(s[2..]) == |raw| && "}}" <= s[2 + |raw|..]
  {
    var t := "{{" + raw + "}}";
    var rest := s[|t|..];
    assert s == t + rest;
    assert s[2..] == raw + ("}}" + rest);
    BraceFreeRun(raw, "}}" + rest);
    assert s[2 + |raw|..] == "}}" + rest;
  }

  // ----- Rendering -----

  /** `_lookup`: follow the path through objects; anything missing reads as "". */
  function Lookup(v: Value, path: seq<string>): Value {
    if path == [] then v
    else if v.Obj? && path[0] in v.fields then Lookup(v.fields[path[0]], path[1..])
    else Str("")
  }

  function Chars(s: string): seq<Piece> {
    seq(|s|, i requires 0 <= i < |s| => Char(s[i]))
  }

  function Show(v: Value): seq<Piece> {
    match v
    case Str(s) => Chars(s)
    case Scalar(text) => Chars(text)
    case ListOf(_) | Obj(_) => [Dump(v)]
  }

  function RenderPart(part: Part, context: Value): seq<Piece> {
    match part
    case Plain(c) => [Char(c)]
    case Token(path) => Show(Lookup(context, path))
  }

  /** `_render`, on a parsed template. */
  function Render(parts: seq<Part>, context: Value): seq<Piece> {
    if parts == [] then [] else RenderPart(parts[0], context) + Render(parts[1..], context)
  }

  // ----- What a rendered template is -----

  /** From `v` down through the fields of objects to `w`, one name after the other. */
  ghost predicate Trail(path: seq<string>, trail: seq<Value>) {
    && |trail| == |path| + 1
    && forall i :: 0 <= i < |path| ==> trail[i].Obj? && path[i] in trail[i].fields && trail[i + 1] == trail[i].fields[path[i]]
  }

  ghost predicate LeadsTo(v: Value, path: seq<string>, w: Value) {
    exists trail :: Trail(path, trail) && trail[0] == v && trail[|path|] == w
  }

  /** A string or a scalar stands for its own characters, an object or a list for its JSON text. */
  ghost predicate IsTextOf(w: Value, text: seq<Piece>) {
    match w
    case Str(s) => |text| == |s| && forall i :: 0 <= i < |s| ==> text[i] == Char(s[i])
    case Scalar(s) => |text| == |s| && forall i :: 0 <= i < |s| ==> text[i] == Char(s[i])
    case ListOf(_) => text == [Dump(w)]
    case Obj(_) => text == [Dump(w)]
  }

  /** The names a token spells: what stands between its braces and the white space inside them, cut at the dots. */
  ghost predicate Spells(raw: string, path: seq<string>) {
    && path != [] && (forall i :: 0 <= i < |path| ==> '.' !in path[i])
    && Trimmed(Join(path, '.'))
    && exists a, b :: AllSpace(a) && AllSpace(b) && raw == a + Join(path, '.') + b
  }

  /** The text of what a path leads to; a path that leads nowhere stands for nothing. */
  ghost predicate PathText(context: Value, path: seq<string>, text: seq<Piece>) {
    if exists w :: LeadsTo(context, path, w) then exists w :: LeadsTo(context, path, w) && IsTextOf(w, text) else text == []
  }

  /** What a stretch of a template stands for. */
  ghost predicate StandsFor(x: Stretch, context: Value, text: seq<Piece>) {
    match x
    case OneChar(c) => text == [Char(c)]
    case Braced(raw) =>
      exists path :: Spells(raw, path) && PathText(context, path, text)
  }

  ghost predicate StandsBetween(x: Stretch, context: Value, rendered: seq<Piece>, from: nat, to: nat) {
    from <= to <= |rendered| && StandsFor(x, context, rendered[from..to])
  }

  /** `rendered` is cut at `ends` into what the stretches stand for, in order. */
  ghost predicate Renders(xs: seq<Stretch>, context: Value, rendered: seq<Piece>, ends: seq<nat>) {
    && |ends| == |xs| + 1 && ends[0] == 0 && ends[|xs|] == |rendered|
    && forall i {:trigger xs[i]} :: 0 <= i < |xs| ==> StandsBetween(xs[i], context, rendered, ends[i], ends[i + 1])
  }

  lemma LeadsNowhere(v: Value, w: Value)
    ensures LeadsTo(v, [], w) <==> v == w
  {
    if v == w {
      assert Trail([], [v]) && [v][0] == v;
    }
  }

  lemma LeadsOn(v: Value, path: seq<string>, w: Value)
    requires path != []
    ensures LeadsTo(v, path, w) <==> v.Obj? && path[0] in v.fields && LeadsTo(v.fields[path[0]], path[1..], w)
  {
    hide LeadsTo;
    if LeadsTo(v, path, w) {
      LeadsDown(v, path, w);
    }
    if v.Obj? && path[0] in v.fields && LeadsTo(v.fields[path[0]], path[1..], w) {
      LeadsUp(v, path, w);
    }
  }

  lemma LeadsDown(v: Value, path: seq<string>, w: Value)
    requires path != [] && LeadsTo(v, path, w)
    ensures v.Obj? && path[0] in v.fields && LeadsTo(v.fields[path[0]], path[1..], w)
  {
    var trail :| Trail(path, trail) && trail[0] == v && trail[|path|] == w;
    var rest := trail[1..];
    assert Trail(path[1..], rest) && rest[0] == v.fields[path[0]] && rest[|path| - 1] == w;
  }

  lemma LeadsUp(v: Value, path: seq<string>, w: Value)
    requires path != [] && v.Obj? && path[0] in v.fields && LeadsTo(v.fields[path[0]], path[1..], w)
    ensures LeadsTo(v, path, w)
  {
    var rest :| Trail(path[1..], rest) && rest[0] == v.fields[path[0]] && rest[|path| - 1] == w;
    var trail := [v] + rest;
    assert Trail(path, trail) && trail[0] == v && trail[|path|] == w;
  }

  /** `_lookup` finds what the path leads to, and nothing when it leads nowhere. */
  lemma {:induction false} LookupIs(v: Value, path: seq<string>)
    ensures forall w :: LeadsTo(v, path, w) ==> w == Lookup(v, path)
    ensures LeadsTo(v, path, Lookup(v, path)) || (Lookup(v, path) == Str("") && forall w :: !LeadsTo(v, path, w))
  {
    hide LeadsTo;
    if path == [] {
      forall w
        ensures LeadsTo(v, path, w) <==> w == v
      {
        LeadsNowhere(v, w);
      }
    } else {
      forall w
        ensures LeadsTo(v, path, w) <==> v.Obj? && path[0] in v.fields && LeadsTo(v.fields[path[0]], path[1..], w)
      {
        LeadsOn(v, path, w);
      }
      if v.Obj? && path[0] in v.fields {
        LookupIs(v.fields[path[0]], path[1..]);
      }
    }
  }

  lemma ShowIsText(w: Value)
    ensures IsTextOf(w, Show(w))
  {
  }

  lemma {:induction false} JoinSplit(s: string, sep: char)
    ensures Join(Split(s, sep), sep) == s
  {
    if s != [] {
      JoinSplit(s[1..], sep);
      var rest := Split(s[1..], sep);
      if s[0] == sep {
        assert ([[]] + rest)[1..] == rest;
      } else if |rest| > 1 {
        assert ([[s[0]] + rest[0]] + rest[1..])[1..] == rest[1..];
      }
    }
  }

  lemma TokenSpells(raw: string)
    ensures Spells(raw, Split(Strip(raw), '.'))
  {
    hide Strip, Split, Join;
    var a, b := StripPads(raw);
    JoinSplit(Strip(raw), '.');
  }

  /** A token spells one path. */
  lemma SpellsOnePath(raw: string, p: seq<string>, q: seq<string>)
    requires Spells(raw, p) && Spells(raw, q)
    ensures p == q
  {
    hide Join, Strip, Split;
    var a, b :| AllSpace(a) && AllSpace(b) && raw == a + Join(p, '.') + b;
    var c, d :| AllSpace(c) && AllSpace(d) && raw == c + Join(q, '.') + d;
    PaddedStrips(a, Join(p, '.'), b);
    PaddedStrips(c, Join(q, '.'), d);
    SplitJoin(p, '.');
    SplitJoin(q, '.');
  }

  lemma StretchStands(x: Stretch, context: Value)
    ensures StandsFor(x, context, RenderPart(Meaning(x), context))
  {
    hide Strip, Split, Join, Lookup, Show, Spells, PathText;
    if x.Braced? {
      var path := Split(Strip(x.raw), '.');
      TokenSpells(x.raw);
      LookupStands(context, path);
      assert RenderPart(Meaning(x), context) == Show(Lookup(context, path));
      assert Spells(x.raw, path) && PathText(context, path, RenderPart(Meaning(x), context));
    }
  }

  lemma LookupStands(context: Value, path: seq<string>)
    ensures PathText(context, path, Show(Lookup(context, path)))
  {
    hide IsTextOf, LeadsTo;
    LookupIs(context, path);
    ShowIsText(Lookup(context, path));
  }

  lemma {:induction false} RenderAll(xs: seq<Stretch>, parts: seq<Part>, context: Value) returns (ends: seq<nat>)
    requires |parts| == |xs| && forall i :: 0 <= i < |xs| ==> parts[i] == Meaning(xs[i])
    ensures Renders(xs, context, Render(parts, context), ends)
  {
    hide StandsFor, RenderPart, Meaning;
    if xs == [] {
      ends := [0];
    } else {
      var rest := RenderAll(xs[1..], parts[1..], context);
      var head := RenderPart(parts[0], context);
      StretchStands(xs[0], context);
      ends := [0] + seq(|rest|, i requires 0 <= i < |rest| => |head| + rest[i]);
      RenderCons(xs, context, head, Render(parts[1..], context), rest, ends);
    }
  }

  lemma RenderCons(xs: seq<Stretch>, context: Value, head: seq<Piece>, tail: seq<Piece>, rest: seq<nat>, ends: seq<nat>)
    requires xs != [] && StandsFor(xs[0], context, head) && Renders(xs[1..], context, tail, rest)
    requires |ends| == |rest| + 1 && ends[0] == 0 && forall i :: 0 <= i < |rest| ==> ends[i + 1] == |head| + rest[i]
    ensures Renders(xs, context, head + tail, ends)
  {
    hide StandsFor;
    assert rest[|xs| - 1] == |tail| && ends[|xs|] == |head| + rest[|xs| - 1];
    forall i {:trigger xs[i]} | 0 <= i < |xs|
      ensures StandsBetween(xs[i], context, head + tail, ends[i], ends[i + 1])
    {
      if i == 0 {
        assert (head + tail)[..|head|] == head;
      } else {
        assert xs[i] == xs[1..][i - 1];
        assert StandsBetween(xs[1..][i - 1], context, tail, rest[i - 1], rest[i]);
        assert ends[i] == |head| + rest[i - 1] && ends[i + 1] == |head| + rest[i];
        assert (head + tail)[ends[i]..ends[i + 1]] == tail[rest[i - 1]..rest[i]];
      }
    }
  }

  /**
   * What `_render` makes of any text: the concatenation, in order, of what the leftmost matches of the
   * pattern and the characters between them stand for.
   */
  lemma RenderIs(s: string, context: Value) returns (xs: seq<Stretch>, ends: seq<nat>)
    ensures Spellings(xs) == s && Leftmost(xs)
    ensures Renders(xs, context, Render(Parse(s), context), ends)
  {
    hide Parse, Render, Renders;
    xs := ParseIsLeftmost(s);
    ends := RenderAll(xs, Parse(s), context);
  }

  /** A text without a token renders as itself. */
  lemma {:induction false} PlainTextStays(s: string, context: Value)
    requires forall i :: 0 <= i < |s| ==> !TokenAt(s[i..])
    ensures |Render(Parse(s), context)| == |s| && forall i :: 0 <= i < |s| ==> Render(Parse(s), context)[i] == Char(s[i])
  {
    if s != [] {
      assert s[0..] == s;
      var first, rest := FirstStretch(s);
      hide Parse, TokenAt;
      assert rest == s[1..];
      forall i | 0 <= i < |rest|
        ensures !TokenAt(rest[i..])
      {
        assert rest[i..] == s[i + 1..];
      }
      PlainTextStays(rest, context);
      assert ([Plain(s[0])] + Parse(rest))[1..] == Parse(rest);
    }
  }

  lemma TokenStarts(s: string, raw: string)
    requires BracedRaw(raw) && "{{" + raw + "}}" <= s
    ensures TokenAt(s)
  {
  }

  /** No match that starts before a token reaches into it. */
  lemma NoMatchAcross(a: string, raw: string, b: string, other: string)
    requires a != [] && BracedRaw(raw) && BracedRaw(other) && "{{" + other + "}}" <= a + ("{{" + raw + "}}" + b)
    ensures |other| + 4 <= |a| && "{{" + other + "}}" <= a
  {
    var s, m := a + ("{{" + raw + "}}" + b), "{{" + other + "}}";
    assert s[|a|] == '{' && s[|a| + 1] == '{';
    assert forall i :: 2 <= i < |m| ==> m[i] != '{';
    if |m| > |a| {
      assert false;
    }
    assert m == s[..|m|] == a[..|m|];
  }

  /** A token is read where it stands, whatever is written before and after it. */
  lemma {:induction false} ParseAround(a: string, raw: string, b: string)
    requires BracedRaw(raw)
    ensures Parse(a + ("{{" + raw + "}}" + b)) == Parse(a) + [Meaning(Braced(raw))] + Parse(b)
    decreases |a|
  {
    hide *;
    var t := "{{" + raw + "}}" + b;
    if a == [] {
      assert a + t == t;
      ParseToken(raw, b);
      ParseNothing();
    } else {
      var first, rest := FirstStretch(a);
      var here := [Meaning(Braced(raw))];
      if first.OneChar? {
        OneCharMeans(a, first, rest);
        NoTokenBefore(a, raw, b);
        PlainAt(a + t);
        assert (a + t)[0] == a[0] && (a + t)[1..] == rest + t;
      } else {
        BracedMeans(a, first, rest);
        assert a + t == "{{" + first.raw + "}}" + (rest + t);
        ParseToken(first.raw, rest + t);
      }
      ParseAround(rest, raw, b);
      assert [Meaning(first)] + (Parse(rest) + here + Parse(b)) == ([Meaning(first)] + Parse(rest)) + here + Parse(b);
    }
  }

  lemma OneCharMeans(s: string, first: Stretch, rest: string)
    requires first.OneChar? && s == Spelling(first) + rest
    ensures s != [] && Meaning(first) == Plain(s[0]) && s[1..] == rest
  {
  }

  lemma BracedMeans(s: string, first: Stretch, rest: string)
    requires first.Braced? && s == Spelling(first) + rest
    ensures s == "{{" + first.raw + "}}" + rest
  {
  }

  lemma ParseNothing()
    ensures Parse([]) == []
  {
  }

  lemma ParseToken(raw: string, b: string)
    requires BracedRaw(raw)
    ensures Parse("{{" + raw + "}}" + b) == [Meaning(Braced(raw))] + Parse(b)
  {
    hide BraceFree, Strip, Split;
    var s := "{{" + raw + "}}" + b;
    assert "{{" + raw + "}}" <= s;
    MatchFound(s, raw);
    assert s[2..2 + |raw|] == raw && s[|raw| + 4..] == b;
  }

  lemma NoTokenBefore(a: string, raw: string, b: string)
    requires a != [] && BracedRaw(raw) && !TokenAt(a)
    ensures !TokenAt(a + ("{{" + raw + "}}" + b))
  {
    hide BracedRaw;
    forall other | BracedRaw(other)
      ensures !("{{" + other + "}}" <= a + ("{{" + raw + "}}" + b))
    {
      if "{{" + other + "}}" <= a + ("{{" + raw + "}}" + b) {
        NoMatchAcross(a, raw, b, other);
      }
    }
  }

  lemma PlainAt(s: string)
    requires s != [] && !TokenAt(s)
    ensures Parse(s) == [Plain(s[0])] + Parse(s[1..])
  {
    hide Parse, BracedRaw;
    var first, rest := FirstStretch(s);
    assert s[1..] == rest;
  }

  lemma {:induction false} RenderConcat(xs: seq<Part>, ys: seq<Part>, context: Value)
    ensures Render(xs + ys, context) == Render(xs, context) + Render(ys, context)
  {
    if xs == [] {
      assert xs + ys == ys;
    } else {
      assert (xs + ys)[1..] == xs[1..] + ys;
      RenderConcat(xs[1..], ys, context);
    }
  }

  /** The value of a token stands between what the texts around it render to. */
  lemma TokenBetween(a: string, raw: string, b: string, context: Value) returns (text: seq<Piece>)
    requires BracedRaw(raw)
    ensures Render(Parse(a + ("{{" + raw + "}}" + b)), context) == Render(Parse(a), context) + text + Render(Parse(b), context)
    ensures StandsFor(Braced(raw), context, text)
  {
    hide Parse, Meaning, StandsFor;
    ParseAround(a, raw, b);
    text := RenderPart(Meaning(Braced(raw)), context);
    StretchStands(Braced(raw), context);
    RenderConcat(Parse(a) + [Meaning(Braced(raw))], Parse(b), context);
    RenderConcat(Parse(a), [Meaning(Braced(raw))], context);
    assert [Meaning(Braced(raw))][1..] == [];
    assert text + [] == text;
  }

  // ----- What a tick lets prompts read -----

  /** The context of a workflow tick: the run input and the results of the succeeded steps. */
  function TickContext(input: Value, steps: map<string, Value>): Value {
    Obj(map["input" := input, "steps" := Obj(steps)])
  }

  ghost predicate ReadsAllowed(path: seq<string>, allowed: iset<string>) {
    path != [] && (path[0] == "steps" ==> |path| >= 2 && path[1] in allowed)
  }

  /** Every token that reads step results names one of the steps in `allowed`. */
  ghost predicate ReadsOnly(parts: seq<Part>, allowed: iset<string>) {
    forall i :: 0 <= i < |parts| && parts[i].Token? ==> ReadsAllowed(parts[i].path, allowed)
  }

  ghost predicate AgreeOn(a: map<string, Value>, b: map<string, Value>, ids: iset<string>) {
    forall s :: s in ids ==> (s in a <==> s in b) && (s in a ==> a[s] == b[s])
  }

  lemma LookupDependsOnReads(path: seq<string>, input: Value, a: map<string, Value>, b: map<string, Value>, allowed: iset<string>)
    requires AgreeOn(a, b, allowed)
    requires ReadsAllowed(path, allowed)
    ensures Lookup(TickContext(input, a), path) == Lookup(TickContext(input, b), path)
  {
    if path[0] == "steps" {
      assert Lookup(TickContext(input, a), path) == Lookup(Obj(a), path[1..]);
      assert Lookup(TickContext(input, b), path) == Lookup(Obj(b), path[1..]);
      assert path[1..][0] == path[1];
    }
  }

  /** A template reads nothing but the input and the steps its tokens name. */
  lemma {:induction false} RenderDependsOnReads(parts: seq<Part>, input: Value, a: map<string, Value>, b: map<string, Value>,
                                                allowed: iset<string>)
    requires ReadsOnly(parts, allowed) && AgreeOn(a, b, allowed)
    ensures Render(parts, TickContext(input, a)) == Render(parts, TickContext(input, b))
  {
    if parts != [] {
      RenderDependsOnReads(parts[1..], input, a, b, allowed);
      if parts[0].Token? {
        LookupDependsOnReads(parts[0].path, input, a, b, allowed);
      }
    }
  }
}
