/** The embedded-JSON extractor of perturbations/parsers.py (`CustomJsonOutputParser`):
    a character scan that finds the first top-level `{...}` span in free judge text, then a
    decode chain (strict JSON, then Python literal syntax) and a schema check on that span. */
module Extractor {
  import opened Wrappers
  import opened PyValues
  import opened Schemas
  import opened JsonText

  // ---------------------------------------------------------------------------------------
  // The scan of find_outermost_json

  /** The loop state of the scan. The stack only ever holds `'{'`, so its depth is all of it;
      `start` is -1 until an object opens. */
  datatype Scanner = Scanner(depth: nat, inString: bool, escape: bool, start: int)

  const Initial := Scanner(0, false, false, -1)

  /** What the state can be at the top of iteration `i` before anything was returned. */
  predicate Good(s: Scanner, i: nat)
  {
    && -1 <= s.start < i
    && (s.start == -1 <==> s.depth == 0)
    && (s.escape ==> s.inString)
  }

  /** The character `c` pushes a `'{'`. */
  predicate Opens(s: Scanner, c: char)
  {
    c == '{' && !s.inString
  }

  /** The character `c` is a `'}'` that leaves the stack empty while an object is open:
      the scan returns at it. */
  predicate Closes(s: Scanner, c: char)
  {
    c == '}' && !s.inString && s.depth <= 1 && s.start != -1
  }

  /** The state after the loop body has seen character `c` at index `i` without returning. */
  function StepState(s: Scanner, i: nat, c: char): Scanner
  {
    if c == '"' && !s.escape then s.(inString := !s.inString)
    else if c == '\\' && s.inString then s.(escape := !s.escape)
    else if c == '{' && !s.inString then
      s.(depth := s.depth + 1, start := if s.depth == 0 then i else s.start)
    else if c == '}' && !s.inString then
      s.(depth := if s.depth > 0 then s.depth - 1 else 0)
    else if s.escape then s.(escape := false)
    else s
  }

  /** Scanning the text `w`, whose first character is at index `base`, from state `s`:
      the span `[start, stop)` returned, if any. */
  function ScanFrom(s: Scanner, base: nat, w: string): (r: Option<(int, nat)>)
    ensures Good(s, base) && r.Some? ==> 0 <= r.value.0 < r.value.1 <= base + |w|
    decreases |w|
  {
    if w == [] then None
    else if Closes(s, w[0]) then Some((s.start, base + 1))
    else ScanFrom(StepState(s, base, w[0]), base + 1, w[1..])
  }

  /** The state reached after all of `w`, ignoring returns. */
  function Run(s: Scanner, base: nat, w: string): Scanner
    decreases |w|
  {
    if w == [] then s else Run(StepState(s, base, w[0]), base + 1, w[1..])
  }

  /** The state of the scan of `data` at the top of iteration `k`. */
  function LexTo(data: string, k: nat): Scanner
    requires k <= |data|
  {
    Run(Initial, 0, data[..k])
  }

  /** The span find_outermost_json returns, as indices into `data`. */
  function OutermostSpan(data: string): (r: Option<(int, nat)>)
    ensures r.Some? ==> 0 <= r.value.0 < r.value.1 <= |data|
  {
    ScanFrom(Initial, 0, data)
  }

  /** find_outermost_json's outcome: the slice it returns, or the exception it raises. */
  function OutermostJson(data: string): Result<string, Failure>
  {
    match OutermostSpan(data)
    case Some((a, b)) => Ok(data[a..b])
    case None => Err(NoJsonExtracted)
  }

  /** find_outermost_json, step by step as the source runs it. */
  method FindOutermostJson(data: string) returns (r: Result<string, Failure>)
    ensures r == OutermostJson(data)
    ensures r.Ok? ==> |r.value| >= 2 && r.value[0] == '{' && r.value[|r.value| - 1] == '}'
  {
    SpanIsFirstObject(data);
    var depth: nat := 0;
    var inString := false;
    var escape := false;
    var start := -1;
    var i := 0;
    while i < |data|
      invariant 0 <= i <= |data|
      invariant Good(Scanner(depth, inString, escape, start), i)
      invariant OutermostSpan(data) == ScanFrom(Scanner(depth, inString, escape, start), i, data[i..])
    {
      var c := data[i];
      assert data[i..][0] == c && data[i..][1..] == data[i + 1..];
      if c == '"' && !escape {
        inString := !inString;
      } else if c == '\\' && inString {
        escape := !escape;
      } else if c == '{' && !inString {
        if depth == 0 {
          start := i;
        }
        depth := depth + 1;
      } else if c == '}' && !inString {
        if depth > 0 {
          depth := depth - 1;
        }
        if depth == 0 && start != -1 {
          return Ok(data[start..i + 1]);
        }
      } else if escape {
        escape := false;
      }
      i := i + 1;
    }
    return Err(NoJsonExtracted);
  }

  // ---------------------------------------------------------------------------------------
  // Composition of scans

  lemma {:induction false} RunAppend(s: Scanner, base: nat, a: string, b: string)
    ensures Run(s, base, a + b) == Run(Run(s, base, a), base + |a|, b)
    decreases |a|
  {
    if a != [] {
      assert (a + b)[0] == a[0] && (a + b)[1..] == a[1..] + b;
      RunAppend(StepState(s, base, a[0]), base + 1, a[1..], b);
    } else {
      assert a + b == b;
    }
  }

  /** Scanning `a + b` returns what scanning `a` returns, or else what scanning `b` from the
      state after `a` returns. */
  lemma {:induction false} ScanAppend(s: Scanner, base: nat, a: string, b: string)
    ensures ScanFrom(s, base, a + b) ==
      if ScanFrom(s, base, a).Some? then ScanFrom(s, base, a)
      else ScanFrom(Run(s, base, a), base + |a|, b)
    decreases |a|
  {
    if a != [] {
      assert (a + b)[0] == a[0] && (a + b)[1..] == a[1..] + b;
      if !Closes(s, a[0]) {
        ScanAppend(StepState(s, base, a[0]), base + 1, a[1..], b);
      }
    } else {
      assert a + b == b;
    }
  }

  lemma LexToStep(data: string, k: nat)
    requires k < |data|
    ensures LexTo(data, k + 1) == StepState(LexTo(data, k), k, data[k])
  {
    assert data[..k + 1] == data[..k] + [data[k]];
    RunAppend(Initial, 0, data[..k], [data[k]]);
  }

  /** No `'}'` before index `k` ends an object. */
  predicate NoCloseBefore(data: string, k: nat)
    requires k <= |data|
  {
    forall j :: 0 <= j < k ==> !Closes(LexTo(data, j), data[j])
  }

  /** Until something is returned, the whole scan is the rest of the scan from the current state. */
  lemma {:induction false} ScanResumes(data: string, k: nat)
    requires k <= |data|
    requires NoCloseBefore(data, k)
    ensures OutermostSpan(data) == ScanFrom(LexTo(data, k), k, data[k..])
  {
    if k > 0 {
      ScanResumes(data, k - 1);
      LexToStep(data, k - 1);
      assert data[k - 1..][0] == data[k - 1] && data[k - 1..][1..] == data[k..];
    }
  }

  /** Until something is returned, the state is Good and `start` records the first `'{'`
      outside a string; from there on the depth never drops below one. */
  lemma {:induction false} StartIsFirstOpen(data: string, k: nat)
    requires k <= |data|
    requires NoCloseBefore(data, k)
    ensures Good(LexTo(data, k), k)
    ensures LexTo(data, k).start == -1 ==> forall j :: 0 <= j < k ==> !Opens(LexTo(data, j), data[j])
    ensures LexTo(data, k).start >= 0 ==>
      var a := LexTo(data, k).start;
      && data[a] == '{' && Opens(LexTo(data, a), data[a]) && LexTo(data, a).depth == 0
      && (forall j :: 0 <= j < a ==> !Opens(LexTo(data, j), data[j]))
      && (forall j :: a < j <= k ==> LexTo(data, j).depth >= 1)
  {
    if k > 0 {
      StartIsFirstOpen(data, k - 1);
      LexToStep(data, k - 1);
      var s := LexTo(data, k - 1);
      var c := data[k - 1];
      if s.start == -1 && Opens(s, c) {
        assert LexTo(data, k).start == k - 1;
        assert LexTo(data, k).depth == 1;
      }
    }
  }

  /** The span find_outermost_json returns is the first top-level object of the text: it
      starts at the first `'{'` outside a string, where the depth is zero, it ends at the
      first `'}'` that brings the depth back to zero, and the depth stays positive in between.
      No span is returned exactly when no `'}'` ever closes an open object. */
  lemma SpanIsFirstObject(data: string)
    ensures OutermostSpan(data).None? <==> NoCloseBefore(data, |data|)
    ensures OutermostSpan(data).Some? ==>
      var (a, b) := OutermostSpan(data).value;
      && data[a] == '{' && data[b - 1] == '}'
      && Opens(LexTo(data, a), data[a]) && LexTo(data, a).depth == 0
      && (forall j :: 0 <= j < a ==> !Opens(LexTo(data, j), data[j]))
      && Closes(LexTo(data, b - 1), data[b - 1]) && LexTo(data, b - 1).depth == 1
      && NoCloseBefore(data, b - 1)
      && (forall j :: a < j < b ==> LexTo(data, j).depth >= 1)
  {
    if NoCloseBefore(data, |data|) {
      ScanResumes(data, |data|);
    } else {
      var k := FirstClose(data, 0);
      ScanResumes(data, k);
      StartIsFirstOpen(data, k);
      assert data[k..][0] == data[k];
    }
  }

  /** The index of the first `'}'` at or after `k` that closes an object, given one exists. */
  lemma {:induction false} FirstCloseExists(data: string, k: nat)
    requires k <= |data|
    requires NoCloseBefore(data, k) && !NoCloseBefore(data, |data|)
    ensures exists j :: k <= j < |data| && NoCloseBefore(data, j) && Closes(LexTo(data, j), data[j])
    decreases |data| - k
  {
    if k == |data| {
    } else if Closes(LexTo(data, k), data[k]) {
    } else {
      assert NoCloseBefore(data, k + 1);
      FirstCloseExists(data, k + 1);
    }
  }

  ghost function FirstClose(data: string, k: nat): (j: nat)
    requires k <= |data|
    requires NoCloseBefore(data, k) && !NoCloseBefore(data, |data|)
    ensures k <= j < |data| && NoCloseBefore(data, j) && Closes(LexTo(data, j), data[j])
  {
    FirstCloseExists(data, k);
    var j :| k <= j < |data| && NoCloseBefore(data, j) && Closes(LexTo(data, j), data[j]);
    j
  }

  /** Text after the first object never changes the result: a later object is never returned. */
  lemma LaterTextIgnored(x: string, y: string)
    requires OutermostSpan(x).Some?
    ensures OutermostSpan(x + y) == OutermostSpan(x)
    ensures OutermostJson(x + y) == OutermostJson(x)
  {
    ScanAppend(Initial, 0, x, y);
    var (a, b) := OutermostSpan(x).value;
    assert (x + y)[a..b] == x[a..b];
  }

  // ---------------------------------------------------------------------------------------
  // Well-formed JSON passes through the scan unharmed

  /** Scanning `w` from `s` returns nothing and comes back to `s`. */
  predicate Transparent(s: Scanner, base: nat, w: string)
  {
    ScanFrom(s, base, w).None? && Run(s, base, w) == s
  }

  /** Between the braces of an open object, outside any string. */
  predicate Inside(s: Scanner)
  {
    s.depth >= 1 && !s.inString && !s.escape
  }

  /** No character the scan treats specially. */
  predicate Plain(w: string)
  {
    forall i :: 0 <= i < |w| ==> w[i] != '"' && w[i] != '\\' && w[i] != '{' && w[i] != '}'
  }

  lemma TransparentAppend(s: Scanner, base: nat, a: string, b: string)
    requires Transparent(s, base, a) && Transparent(s, base + |a|, b)
    ensures Transparent(s, base, a + b)
  {
    ScanAppend(s, base, a, b);
    RunAppend(s, base, a, b);
  }

  lemma {:induction false} PlainTransparent(s: Scanner, base: nat, w: string)
    requires !s.escape && (s.inString || s.depth >= 1)
    requires Plain(w)
    ensures Transparent(s, base, w)
    decreases |w|
  {
    if w != [] {
      assert w[0] != '"' && w[0] != '\\' && w[0] != '{' && w[0] != '}';
      assert Plain(w[1..]) by {
        forall i | 0 <= i < |w[1..]| ensures w[1..][i] == w[i + 1] { }
      }
      PlainTransparent(s, base + 1, w[1..]);
    }
  }

  /** One character on its own. */
  lemma Single(s: Scanner, base: nat, c: char)
    ensures ScanFrom(s, base, [c]) == if Closes(s, c) then Some((s.start, base + 1)) else None
    ensures Run(s, base, [c]) == StepState(s, base, c)
  {
    assert [c][1..] == [];
  }

  /** Two characters, neither of which closes an object, that bring the state back. */
  lemma PairTransparent(s: Scanner, base: nat, c: char, d: char)
    requires !Closes(s, c) && !Closes(StepState(s, base, c), d)
    requires StepState(StepState(s, base, c), base + 1, d) == s
    ensures Transparent(s, base, [c, d])
  {
    Single(s, base, c);
    Single(StepState(s, base, c), base + 1, d);
    assert [c, d] == [c] + [d];
    ScanAppend(s, base, [c], [d]);
    RunAppend(s, base, [c], [d]);
  }

  /** The characters of a string literal between its quotes leave an open string open, with no
      escape pending: an escaped quote does not end the string and braces in it do not count. */
  lemma {:induction false} PiecesTransparent(s: Scanner, base: nat, pieces: seq<Piece>)
    requires s.inString && !s.escape
    requires ValidPieces(pieces)
    ensures Transparent(s, base, PiecesText(pieces))
    decreases |pieces|
  {
    if pieces != [] {
      var p := pieces[0];
      var e := PieceText(p);
      assert ValidPiece(p);
      match p {
        case Raw(c) =>
          Single(s, base, c);
        case Short(c) =>
          PairTransparent(s, base, '\\', c);
          assert e == ['\\', c];
        case Unicode(hex) =>
          PairTransparent(s, base, '\\', 'u');
          PlainTransparent(s, base + 2, hex);
          TransparentAppend(s, base, ['\\', 'u'], hex);
      }
      assert ValidPieces(pieces[1..]) by {
        forall i | 0 <= i < |pieces[1..]| ensures pieces[1..][i] == pieces[i + 1] { }
      }
      PiecesTransparent(s, base + |e|, pieces[1..]);
      TransparentAppend(s, base, e, PiecesText(pieces[1..]));
    }
  }

  lemma QuoteTransparent(s: Scanner, base: nat, pieces: seq<Piece>)
    requires Inside(s)
    requires ValidPieces(pieces)
    ensures Transparent(s, base, Quote(pieces))
  {
    var entered := s.(inString := true);
    var body := PiecesText(pieces);
    Single(s, base, '"');
    PiecesTransparent(entered, base + 1, pieces);
    var closing := base + 1 + |body|;
    Single(entered, closing, '"');
    ScanAppend(s, base, ['"'], body);
    RunAppend(s, base, ['"'], body);
    ScanAppend(s, base, ['"'] + body, ['"']);
    RunAppend(s, base, ['"'] + body, ['"']);
  }

  /** A bracketed group `open + w + close` whose inside is transparent one level deeper. */
  lemma NestedTransparent(s: Scanner, base: nat, open: char, w: string, close: char)
    requires Inside(s)
    requires (open == '{' && close == '}') || (open == '[' && close == ']')
    requires Transparent(StepState(s, base, open), base + 1, w)
    ensures Transparent(s, base, [open] + w + [close])
  {
    var t := StepState(s, base, open);
    Single(s, base, open);
    ScanAppend(s, base, [open], w);
    RunAppend(s, base, [open], w);
    var last := base + 1 + |w|;
    Single(t, last, close);
    ScanAppend(s, base, [open] + w, [close]);
    RunAppend(s, base, [open] + w, [close]);
  }

  lemma BlankTransparent(s: Scanner, base: nat, w: string)
    requires Inside(s) && Blank(w)
    ensures Transparent(s, base, w)
  {
    assert Plain(w);
    PlainTransparent(s, base, w);
  }

  /** Every well-formed JSON value, however it is laid out, met between the braces of an open
      object leaves the scan where it was: no span is returned inside it and the state is the
      same afterwards. */
  lemma {:induction false} ValueTransparent(v: Json, s: Scanner, base: nat)
    requires Inside(s) && Valid(v)
    ensures Transparent(s, base, Text(v))
    decreases v, 2
  {
    match v
    case JNull => PlainTransparent(s, base, "null");
    case JBool(b) => PlainTransparent(s, base, if b then "true" else "false");
    case JNumber(text) =>
      assert Plain(text);
      PlainTransparent(s, base, text);
    case JStr(pieces) => QuoteTransparent(s, base, pieces);
    case JArray(items, blank) =>
      var t := StepState(s, base, '[');
      assert t == s;
      if items == [] {
        BlankTransparent(t, base + 1, blank);
      } else {
        ItemsTransparent(items, t, base + 1);
      }
      NestedTransparent(s, base, '[', if items == [] then blank else ItemsText(items), ']');
    case JObject(members, blank) =>
      var t := StepState(s, base, '{');
      assert Inside(t);
      BodyTransparent(members, blank, t, base + 1);
      NestedTransparent(s, base, '{', if members == [] then blank else MembersText(members), '}');
  }

  /** The inside of an object's braces. */
  lemma BodyTransparent(members: seq<Member>, blank: string, s: Scanner, base: nat)
    requires Inside(s) && Blank(blank) && ValidMembers(members)
    ensures Transparent(s, base, if members == [] then blank else MembersText(members))
    decreases members, 1
  {
    if members == [] {
      BlankTransparent(s, base, blank);
    } else {
      MembersTransparent(members, s, base);
    }
  }

  lemma ItemTransparent(item: Item, s: Scanner, base: nat)
    requires Inside(s)
    requires Blank(item.before) && Valid(item.value) && Blank(item.after)
    ensures Transparent(s, base, ItemText(item))
    decreases item, 1
  {
    var head := item.before + Text(item.value);
    BlankTransparent(s, base, item.before);
    ValueTransparent(item.value, s, base + |item.before|);
    TransparentAppend(s, base, item.before, Text(item.value));
    BlankTransparent(s, base + |head|, item.after);
    TransparentAppend(s, base, head, item.after);
  }

  lemma {:induction false} ItemsTransparent(items: seq<Item>, s: Scanner, base: nat)
    requires Inside(s) && ValidItems(items)
    ensures Transparent(s, base, ItemsText(items))
    decreases items, 1
  {
    if |items| >= 1 {
      ItemTransparent(items[0], s, base);
    }
    if |items| > 1 {
      var head := ItemText(items[0]);
      PlainTransparent(s, base + |head|, ",");
      TransparentAppend(s, base, head, ",");
      assert ValidItems(items[1..]) by {
        forall i | 0 <= i < |items[1..]| ensures items[1..][i] == items[i + 1] { }
      }
      ItemsTransparent(items[1..], s, base + |head + ","|);
      TransparentAppend(s, base, head + ",", ItemsText(items[1..]));
    }
  }

  lemma MemberTransparent(m: Member, s: Scanner, base: nat)
    requires Inside(s) && ValidMember(m)
    ensures Transparent(s, base, MemberText(m))
    decreases m, 1
  {
    var a := m.before;
    BlankTransparent(s, base, a);
    QuoteTransparent(s, base + |a|, m.key);
    TransparentAppend(s, base, a, Quote(m.key));
    var b := a + Quote(m.key);
    BlankTransparent(s, base + |b|, m.beforeColon);
    TransparentAppend(s, base, b, m.beforeColon);
    var c := b + m.beforeColon;
    PlainTransparent(s, base + |c|, ":");
    TransparentAppend(s, base, c, ":");
    var d := c + ":";
    BlankTransparent(s, base + |d|, m.afterColon);
    TransparentAppend(s, base, d, m.afterColon);
    var e := d + m.afterColon;
    ValueTransparent(m.value, s, base + |e|);
    TransparentAppend(s, base, e, Text(m.value));
    var f := e + Text(m.value);
    BlankTransparent(s, base + |f|, m.after);
    TransparentAppend(s, base, f, m.after);
  }

  lemma {:induction false} MembersTransparent(members: seq<Member>, s: Scanner, base: nat)
    requires Inside(s) && ValidMembers(members)
    ensures Transparent(s, base, MembersText(members))
    decreases members, 0
  {
    if |members| >= 1 {
      MemberTransparent(members[0], s, base);
    }
    if |members| > 1 {
      var head := MemberText(members[0]);
      PlainTransparent(s, base + |head|, ",");
      TransparentAppend(s, base, head, ",");
      assert ValidMembers(members[1..]) by {
        forall i | 0 <= i < |members[1..]| ensures members[1..][i] == members[i + 1] { }
      }
      MembersTransparent(members[1..], s, base + |head + ","|);
      TransparentAppend(s, base, head + ",", MembersText(members[1..]));
    }
  }

  /** Prose without `'{'` and `'"'` leaves the scan in its initial state. */
  lemma {:induction false} ProseTransparent(base: nat, prose: string)
    requires '{' !in prose && '"' !in prose
    ensures Transparent(Initial, base, prose)
    decreases |prose|
  {
    if prose != [] {
      assert prose[0] in prose;
      assert '{' !in prose[1..] && '"' !in prose[1..] by {
        forall i | 0 <= i < |prose[1..]| ensures prose[1..][i] == prose[i + 1] { }
      }
      ProseTransparent(base + 1, prose[1..]);
    }
  }

  /** Round trip through prose: a well-formed JSON object, in any layout, put after prose that
      holds no `'{'` and no `'"'` and followed by any text at all, is recovered exactly. */
  lemma RoundTrip(prefix: string, obj: Json, suffix: string)
    requires '{' !in prefix && '"' !in prefix
    requires obj.JObject? && Valid(obj)
    ensures OutermostJson(prefix + Text(obj) + suffix) == Ok(Text(obj))
  {
    var text := Text(obj);
    var inner := if obj.members == [] then obj.blank else MembersText(obj.members);
    var head := ['{'] + inner;
    var rest := head + (['}'] + suffix);
    var data := prefix + text + suffix;
    var p := |prefix|;
    OpenedBody(obj, p);
    ClosesAfter(Initial, p, head, Scanner(1, false, false, p), suffix);
    AfterProse(prefix, rest);
    assert text == head + ['}'];
    assert data == prefix + rest;
    assert OutermostSpan(data) == Some((p, p + |text|));
    assert data[p..p + |text|] == text;
  }

  /** Scanning prose without `'{'` and `'"'` and then `rest` is scanning `rest` alone. */
  lemma AfterProse(prose: string, rest: string)
    requires '{' !in prose && '"' !in prose
    ensures ScanFrom(Initial, 0, prose + rest) == ScanFrom(Initial, |prose|, rest)
  {
    ProseTransparent(0, prose);
    assert ScanFrom(Initial, 0, prose) == None && Run(Initial, 0, prose) == Initial;
    ScanAppend(Initial, 0, prose, rest);
  }

  /** After the opening brace of an object at `p` and its body, the scan is still inside the
      object, at depth one, outside any string. */
  lemma OpenedBody(obj: Json, p: nat)
    requires obj.JObject? && Valid(obj)
    ensures var inner := if obj.members == [] then obj.blank else MembersText(obj.members);
      && ScanFrom(Initial, p, ['{'] + inner) == None
      && Run(Initial, p, ['{'] + inner) == Scanner(1, false, false, p)
  {
    var inner := if obj.members == [] then obj.blank else MembersText(obj.members);
    Single(Initial, p, '{');
    BodyTransparent(obj.members, obj.blank, Scanner(1, false, false, p), p + 1);
    ScanAppend(Initial, p, ['{'], inner);
    RunAppend(Initial, p, ['{'], inner);
  }

  /** Once `a` leaves the scan in state `t` without a span, a `'}'` that `t` closes on ends it. */
  lemma ClosesAfter(s: Scanner, base: nat, a: string, t: Scanner, b: string)
    requires ScanFrom(s, base, a) == None && Run(s, base, a) == t && Closes(t, '}')
    ensures ScanFrom(s, base, a + (['}'] + b)) == Some((t.start, base + |a| + 1))
  {
    ScanAppend(s, base, a, ['}'] + b);
    assert (['}'] + b)[0] == '}';
  }

  /** A text that stops anywhere inside an object (in a string, in a number or between members)
      yields no span at all, never a partial one. */
  lemma Truncated(prefix: string, obj: Json, k: nat)
    requires '{' !in prefix && '"' !in prefix
    requires obj.JObject? && Valid(obj)
    requires k < |Text(obj)|
    ensures OutermostJson(prefix + Text(obj)[..k]) == Err(NoJsonExtracted)
  {
    var inner := if obj.members == [] then obj.blank else MembersText(obj.members);
    var head := ['{'] + inner;
    var p := |prefix|;
    OpenedBody(obj, p);
    assert Text(obj)[..k] == head[..k];
    assert head == head[..k] + head[k..];
    ScanAppend(Initial, p, head[..k], head[k..]);
    AfterProse(prefix, head[..k]);
  }

  /** A text without any `'{'` yields no span. */
  lemma {:induction false} NoBraceNoSpan(s: Scanner, base: nat, w: string)
    requires s.start == -1 && '{' !in w
    ensures ScanFrom(s, base, w) == None
    decreases |w|
  {
    if w != [] {
      assert w[0] in w;
      assert '{' !in w[1..] by {
        forall i | 0 <= i < |w[1..]| ensures w[1..][i] == w[i + 1] { }
      }
      NoBraceNoSpan(StepState(s, base, w[0]), base + 1, w[1..]);
    }
  }

  // ---------------------------------------------------------------------------------------
  // The decode chain of invoke

  /** What langchain's JSON output parser does with a reply. */
  datatype LibOutcome = Parsed(value: Value) | ParserException | OtherException(message: string)

  /** The foreign functions the parsing code calls. */
  datatype Library = Library(
    jsonOutputParser: string -> LibOutcome,           // langchain JsonOutputParser .invoke / .parse
    loads: string -> Option<Value>,                   // json.loads; None when it raises JSONDecodeError
    literalEval: string -> Option<Value>,             // ast.literal_eval; None when it raises
    validates: (Schema, map<string, Value>) -> bool)  // pydantic: Schema(**fields) raises no ValidationError

  /** A `CustomJsonOutputParser`: the schema it validates against. */
  datatype CustomJsonOutputParser = CustomJsonOutputParser(schema: Schema)

  /** The constructor: refuses any class that is not a subclass of pydantic's `BaseModel`. */
  function NewCustomJsonOutputParser(schema: Schema): (r: Result<CustomJsonOutputParser, Failure>)
    ensures r.Ok? <==> schema.base == PydanticModel
    ensures r.Ok? ==> r.value.schema == schema
    ensures r.Err? ==> r.error == NotAModelClass
  {
    if schema.base == PydanticModel then Ok(CustomJsonOutputParser(schema)) else Err(NotAModelClass)
  }

  /** The strict decode, and the literal evaluation only when the strict decode raised. */
  function Decode(lib: Library, span: string): Option<Value>
  {
    match lib.loads(span)
    case Some(v) => Some(v)
    case None => lib.literalEval(span)
  }

  /** `invoke`: extract, decode, validate; on success the decoded dict itself is returned. A
      decoded value that is not a dict with string keys fails at `**json_data` with a TypeError,
      which nothing catches. */
  function Invoke(parser: CustomJsonOutputParser, lib: Library, data: string): (r: Result<map<string, Value>, Failure>)
    ensures OutermostJson(data).Err? ==> r == Err(NoJsonExtracted)
    ensures r.Ok? ==>
      && OutermostJson(data).Ok?
      && Decode(lib, OutermostJson(data).value) == Some(Dict(r.value))
      && lib.validates(parser.schema, r.value)
    ensures r == Err(JsonParsingFailed) <==> OutermostJson(data).Ok? && Decode(lib, OutermostJson(data).value).None?
    ensures r == Err(JsonValidationFailed) <==>
      && OutermostJson(data).Ok?
      && Decode(lib, OutermostJson(data).value).Some?
      && Decode(lib, OutermostJson(data).value).value.Dict?
      && !lib.validates(parser.schema, Decode(lib, OutermostJson(data).value).value.fields)
    ensures r == Err(NotAMapping) <==>
      && OutermostJson(data).Ok?
      && Decode(lib, OutermostJson(data).value).Some?
      && !Decode(lib, OutermostJson(data).value).value.Dict?
    ensures
      && OutermostJson(data).Ok?
      && Decode(lib, OutermostJson(data).value).Some?
      && Decode(lib, OutermostJson(data).value).value.Dict?
      && lib.validates(parser.schema, Decode(lib, OutermostJson(data).value).value.fields)
      ==> r == Ok(Decode(lib, OutermostJson(data).value).value.fields)
  {
    match OutermostJson(data)
    case Err(e) => Err(e)
    case Ok(span) =>
      match Decode(lib, span)
      case None => Err(JsonParsingFailed)
      case Some(Dict(fields)) =>
        if lib.validates(parser.schema, fields) then Ok(fields) else Err(JsonValidationFailed)
      case Some(_) => Err(NotAMapping)
  }

  /** The literal evaluator is consulted only when the strict decoder raised. */
  lemma LiteralEvalOnlyAfterDecodeError(parser: CustomJsonOutputParser, lib: Library, other: string -> Option<Value>, data: string)
    requires OutermostJson(data).Ok? && lib.loads(OutermostJson(data).value).Some?
    ensures Invoke(parser, lib, data) == Invoke(parser, lib.(literalEval := other), data)
  {
  }

  /** End to end: an object the decoder reads as a valid dict, wrapped in prose, is returned as
      that dict. */
  lemma InvokeRoundTrip(parser: CustomJsonOutputParser, lib: Library, prefix: string, obj: Json, suffix: string, fields: map<string, Value>)
    requires '{' !in prefix && '"' !in prefix
    requires obj.JObject? && Valid(obj)
    requires lib.loads(Text(obj)) == Some(Dict(fields))
    requires lib.validates(parser.schema, fields)
    ensures Invoke(parser, lib, prefix + Text(obj) + suffix) == Ok(fields)
  {
    RoundTrip(prefix, obj, suffix);
  }
}
