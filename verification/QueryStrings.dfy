/**
 Query strings as the links use them: parameters printed by `addParams` (util/genLink.go:634-651), escaped but for
 "mport" and "alpn", and read back as `url.Parse` and `url.ParseQuery` read them (section 3.4 of RFC 3986). Beyond
 ASCII a character is escaped as a whole, where the source escapes each of its bytes.
 */
module QueryStrings {
  import opened Strings
  import opened Wrappers

  datatype Param = Param(key: string, value: string)

  // ---------------------------------------------------------------- escaping

  predicate Unreserved(c: char) {
    'a' <= c <= 'z' || 'A' <= c <= 'Z' || '0' <= c <= '9' || c == '-' || c == '_' || c == '.' || c == '~'
  }

  const HEX := "0123456789ABCDEF"

  function HexValue(c: char): Option<nat> {
    if '0' <= c <= '9' then Some((c - '0') as nat)
    else if 'A' <= c <= 'F' then Some((c - 'A') as nat + 10)
    else if 'a' <= c <= 'f' then Some((c - 'a') as nat + 10)
    else None
  }

  /** Two hexadecimal digits hold a character below 256; any other passes as it is. */
  function EscapeChar(c: char): string {
    if Unreserved(c) || c as int >= 256 then [c]
    else if c == ' ' then "+"
    else ['%', HEX[c as int / 16], HEX[c as int % 16]]
  }

  /** `url.QueryEscape` */
  function Escape(s: string): string {
    if s == "" then "" else EscapeChar(s[0]) + Escape(s[1..])
  }

  /** `url.QueryUnescape`; None stands for an invalid escape. */
  function Unescape(s: string): Option<string> {
    if s == "" then Some("")
    else if s[0] == '%' then
      if |s| < 3 || HexValue(s[1]).None? || HexValue(s[2]).None? then None
      else Prefixed(ByteOf(HexValue(s[1]).value, HexValue(s[2]).value), Unescape(s[3..]))
    else Prefixed(if s[0] == '+' then ' ' else s[0], Unescape(s[1..]))
  }

  function ByteOf(high: nat, low: nat): char {
    if high < 16 && low < 16 then (16 * high + low) as char else ' '
  }

  function Prefixed(c: char, rest: Option<string>): Option<string> {
    if rest.Some? then Some([c] + rest.value) else None
  }

  lemma HexReadsBack(n: nat)
    requires n < 16
    ensures HexValue(HEX[n]) == Some(n)
  {
  }

  lemma CharReadsBack(c: char, rest: string)
    ensures Unescape(EscapeChar(c) + rest) == Prefixed(c, Unescape(rest))
  {
    if !Unreserved(c) && (c as int) < 256 && c != ' ' {
      var n := c as int;
      HexReadsBack(n / 16);
      HexReadsBack(n % 16);
      assert (EscapeChar(c) + rest)[3..] == rest;
      assert ByteOf(n / 16, n % 16) == c;
    } else {
      assert (EscapeChar(c) + rest)[1..] == rest;
    }
  }

  lemma {:induction false} EscapeReadsBack(s: string)
    ensures Unescape(Escape(s)) == Some(s)
  {
    if s != "" {
      CharReadsBack(s[0], Escape(s[1..]));
      EscapeReadsBack(s[1..]);
      assert [s[0]] + s[1..] == s;
    }
  }

  lemma {:induction false} EscapeFixed(s: string)
    requires forall k :: 0 <= k < |s| ==> Unreserved(s[k])
    ensures Escape(s) == s
  {
    if s != "" {
      EscapeFixed(s[1..]);
      assert [s[0]] + s[1..] == s;
    }
  }

  /** The characters that mean nothing in a query, neither as separators nor as escapes. */
  predicate PlainChar(c: char) {
    c >= ' ' && c as int != 0x7F && c != '&' && c != '#' && c != ';' && c != '%' && c != '+'
  }

  predicate Plain(s: string) {
    forall k :: 0 <= k < |s| ==> PlainChar(s[k])
  }

  /** The characters that end a value or make the query unreadable. */
  predicate SafeChar(c: char) {
    c >= ' ' && c as int != 0x7F && c != '&' && c != '#' && c != ';'
  }

  predicate Safe(s: string) {
    forall k :: 0 <= k < |s| ==> SafeChar(s[k])
  }

  lemma HexIsSafe(n: nat)
    requires n < 16
    ensures SafeChar(HEX[n])
  {
  }

  lemma {:induction false} EscapeIsSafe(s: string)
    ensures Safe(Escape(s))
  {
    if s != "" {
      EscapeIsSafe(s[1..]);
      if !Unreserved(s[0]) && (s[0] as int) < 256 && s[0] != ' ' {
        HexIsSafe(s[0] as int / 16);
        HexIsSafe(s[0] as int % 16);
      }
    }
  }

  /** Reading never makes a text longer, and leaves exactly the texts without escapes as they are. */
  lemma {:induction false} UnescapeShrinks(s: string)
    ensures Unescape(s).Some? ==> |Unescape(s).value| <= |s|
    ensures Unescape(s) == Some(s) <==> Free(s, '%') && Free(s, '+')
    decreases |s|
  {
    if s != "" {
      assert s == [s[0]] + s[1..];
      if s[0] != '%' {
        UnescapeShrinks(s[1..]);
      } else if |s| >= 3 {
        UnescapeShrinks(s[3..]);
      }
    }
  }

  // ---------------------------------------------------------------- printing and reading

  /** The two keys whose values are printed as they are. */
  predicate Raw(key: string) {
    key == "mport" || key == "alpn"
  }

  function Pair(p: Param): string {
    p.key + "=" + if Raw(p.key) then p.value else Escape(p.value)
  }

  function Pairs(params: seq<Param>): (r: seq<string>)
    ensures |r| == |params|
  {
    seq(|params|, k requires 0 <= k < |params| => Pair(params[k]))
  }

  function QueryText(params: seq<Param>): string {
    Join(Pairs(params), '&')
  }

  /** `addParams` up to the joined query. */
  method AddParams(params: seq<Param>) returns (text: string)
    ensures text == QueryText(params)
  {
    var q: seq<string> := [];
    for k := 0 to |params|
      invariant q == Pairs(params)[..k]
    {
      var p := params[k];
      if p.key == "mport" || p.key == "alpn" {
        q := q + [p.key + "=" + p.value];
      } else {
        q := q + [p.key + "=" + Escape(p.value)];
      }
    }
    assert q == Pairs(params);
    text := Join(q, '&');
  }

  /** One piece between ampersands; None if it is dropped. */
  function Piece(text: string): Option<Param> {
    var i := IndexOf(text, '=');
    var key, value := Unescape(text[..i]), Unescape(if i < |text| then text[i + 1..] else "");
    if text == "" || !Free(text, ';') || key.None? || value.None? then None else Some(Param(key.value, value.value))
  }

  function Params(pieces: seq<string>): seq<Param> {
    if pieces == [] then []
    else
      var last := Piece(pieces[|pieces| - 1]);
      Params(pieces[..|pieces| - 1]) + if last.Some? then [last.value] else []
  }

  /** The query of a link: `url.Parse` cuts the fragment off, refuses control characters and a fragment with an
      invalid escape, and `url.ParseQuery` reads the rest. */
  function ReadQuery(text: string): Option<seq<Param>> {
    var i := IndexOf(text, '#');
    if !Printable(text[..i]) || Unescape(if i < |text| then text[i + 1..] else "").None? then None
    else Some(Params(Split(text[..i], '&')))
  }

  predicate Printable(s: string) {
    forall k :: 0 <= k < |s| ==> s[k] >= ' ' && s[k] as int != 0x7F
  }

  // ---------------------------------------------------------------- parameters read back

  /** A key of letters and the like, not empty. */
  predicate KeyOk(key: string) {
    key != "" && forall k :: 0 <= k < |key| ==> Unreserved(key[k])
  }

  predicate Readable(p: Param) {
    KeyOk(p.key) && (Raw(p.key) ==> Plain(p.value))
  }

  /** The printed value of a parameter. */
  function Printed(p: Param): string {
    if Raw(p.key) then p.value else Escape(p.value)
  }

  lemma PieceOfPair(p: Param, value: string)
    requires KeyOk(p.key)
    ensures var read := Unescape(value);
      Piece(p.key + "=" + value) == if Free(value, ';') && read.Some? then Some(Param(p.key, read.value)) else None
  {
    hide Unescape;
    var text := p.key + "=" + value;
    var i := |p.key|;
    assert text[..i] == p.key && text[i] == '=' && text[i + 1..] == value;
    IndexOfUnique(text, '=', i);
    UnescapeShrinks(p.key);
    FreeInPair(p.key, value);
  }

  lemma FreeInPair(key: string, value: string)
    requires KeyOk(key)
    ensures Free(key + "=" + value, ';') <==> Free(value, ';')
  {
    forall k | 0 <= k < |value|
      ensures (key + "=" + value)[|key| + 1 + k] == value[k]
    {
    }
  }

  lemma ReadablePair(p: Param)
    requires Readable(p)
    ensures Piece(Pair(p)) == Some(p) && Safe(Pair(p)) && Pair(p) != ""
  {
    hide Piece;
    PieceOfPair(p, Printed(p));
    if Raw(p.key) {
      UnescapeShrinks(p.value);
    } else {
      EscapeReadsBack(p.value);
      EscapeIsSafe(p.value);
    }
  }

  lemma ParamsOneMore(pieces: seq<string>, x: string)
    ensures Params(pieces + [x]) == Params(pieces) + if Piece(x).Some? then [Piece(x).value] else []
  {
    assert (pieces + [x])[..|pieces|] == pieces;
  }

  lemma PairsOneMore(params: seq<Param>, p: Param)
    ensures Pairs(params + [p]) == Pairs(params) + [Pair(p)]
  {
    hide Pair;
  }

  lemma {:induction false} ReadableParams(params: seq<Param>)
    requires forall k :: 0 <= k < |params| ==> Readable(params[k])
    ensures Params(Pairs(params)) == params
  {
    hide Pair, Piece, Readable, Params, Pairs;
    if params == [] {
      NothingPrinted();
    } else {
      var before, p := params[..|params| - 1], params[|params| - 1];
      assert params == before + [p];
      PairsOneMore(before, p);
      ReadableParams(before);
      ReadablePair(p);
      ParamsOneMore(Pairs(before), Pair(p));
    }
  }

  lemma {:induction false} JoinSafe(xs: seq<string>)
    requires forall k :: 0 <= k < |xs| ==> Safe(xs[k])
    ensures forall k :: 0 <= k < |Join(xs, '&')| ==> SafeChar(Join(xs, '&')[k]) || Join(xs, '&')[k] == '&'
  {
    if |xs| > 1 {
      JoinSafe(xs[1..]);
    }
  }

  /** Parameters with plain raw values are read back as they were printed. */
  lemma QueryReadsBack(params: seq<Param>)
    requires forall k :: 0 <= k < |params| ==> Readable(params[k])
    ensures ReadQuery(QueryText(params)) == Some(params)
  {
    hide Readable, Pair, Piece, Join, Split;
    var pieces := Pairs(params);
    forall k | 0 <= k < |params|
      ensures Safe(pieces[k])
    {
      ReadablePair(params[k]);
    }
    JoinSafe(pieces);
    var text := QueryText(params);
    IndexOfUnique(text, '#', |text|);
    assert text[..|text|] == text;
    ReadableParams(params);
    if params == [] {
      NothingPrinted();
    } else {
      SplitJoin(pieces, '&');
    }
  }

  lemma NothingPrinted()
    ensures Pairs([]) == [] && QueryText([]) == "" && Split("", '&') == [""] && Params([""]) == Params([]) == []
  {
    assert [""][..0] == [];
  }

  // ---------------------------------------------------------------- a raw value that is not plain

  lemma {:induction false} SplitAppend(a: string, b: string, sep: char)
    ensures Split(a + [sep] + b, sep) == Split(a, sep) + Split(b, sep)
    decreases |a|
  {
    var s := a + [sep] + b;
    var i := IndexOf(a, sep);
    assert s[..i] == a[..i];
    IndexOfUnique(s, sep, i);
    assert Split(s, sep) == [s[..i]] + Split(s[i + 1..], sep);
    if i == |a| {
      assert s[i + 1..] == b && a[..i] == a;
    } else {
      assert s[i + 1..] == a[i + 1..] + [sep] + b;
      SplitAppend(a[i + 1..], b, sep);
    }
  }

  lemma {:induction false} JoinAppend(xs: seq<string>, ys: seq<string>, sep: char)
    requires xs != [] && ys != []
    ensures Join(xs + ys, sep) == Join(xs, sep) + [sep] + Join(ys, sep)
  {
    if |xs| == 1 {
      assert (xs + ys)[1..] == ys;
    } else {
      assert (xs + ys)[1..] == xs[1..] + ys;
      JoinAppend(xs[1..], ys, sep);
    }
  }

  /** A piece is shorter than the text unless it is the whole text. */
  lemma {:induction false} PieceLength(s: string, sep: char, k: nat)
    requires k < |Split(s, sep)|
    ensures |Split(s, sep)[k]| <= |s|
    ensures |Split(s, sep)[k]| == |s| ==> Split(s, sep)[k] == s && Free(s, sep)
    decreases |s|
  {
    var i := IndexOf(s, sep);
    if i < |s| && k > 0 {
      PieceLength(s[i + 1..], sep, k - 1);
    }
  }

  /** What is read under "alpn" from one piece is shorter than the value printed, unless that is plain and whole. */
  lemma AlpnPiece(piece: string, value: string)
    requires Printable(value) && Free(value, '#')
    requires |piece| <= |"alpn=" + value| && (|piece| == |"alpn=" + value| ==> piece == "alpn=" + value && Free(piece, '&'))
    requires Piece(piece).Some? && Piece(piece).value.key == "alpn"
    ensures |Piece(piece).value.value| <= |value|
    ensures Piece(piece).value.value == value != "" ==> Plain(value)
  {
    hide Unescape;
    var i := IndexOf(piece, '=');
    UnescapeShrinks(piece[..i]);
    if i < |piece| {
      UnescapeShrinks(piece[i + 1..]);
      if |piece| == |"alpn=" + value| {
        assert piece[4] == '=' && i == 4 && piece[i + 1..] == value;
        forall k | 0 <= k < |value|
          ensures value[k] == piece[5 + k]
        {
        }
      }
    } else {
      UnescapeShrinks("");
    }
  }

  /** The piece does not give back the value printed under "alpn". */
  predicate Loses(piece: string, value: string) {
    var p := Piece(piece);
    p.Some? && p.value.key == "alpn" ==> |p.value.value| <= |value| && p.value.value != value
  }

  lemma {:induction false} AllLose(pieces: seq<string>, value: string)
    requires forall k :: 0 <= k < |pieces| ==> Loses(pieces[k], value)
    ensures forall k :: 0 <= k < |Params(pieces)| && Params(pieces)[k].key == "alpn" ==>
              |Params(pieces)[k].value| <= |value| && Params(pieces)[k].value != value
  {
    if pieces != [] {
      hide Piece;
      var before, x := pieces[..|pieces| - 1], pieces[|pieces| - 1];
      assert pieces == before + [x];
      AllLose(before, value);
      ParamsOneMore(before, x);
      assert Loses(x, value);
    }
  }

  /** Parameters whose value is escaped. */
  predicate AllEscaped(params: seq<Param>) {
    forall k :: 0 <= k < |params| ==> KeyOk(params[k].key) && !Raw(params[k].key)
  }

  /** The pieces before and after the value. */
  lemma EscapedPieces(params: seq<Param>, value: string)
    requires AllEscaped(params)
    ensures AllFree(Pairs(params), '&')
    ensures forall k :: 0 <= k < |params| ==> Safe(Pairs(params)[k]) && Loses(Pairs(params)[k], value)
  {
    hide Piece, Pair;
    forall k | 0 <= k < |params|
      ensures Safe(Pairs(params)[k]) && Loses(Pairs(params)[k], value) && Free(Pairs(params)[k], '&')
    {
      ReadablePair(params[k]);
    }
  }

  function Before(params: seq<Param>): string {
    if params == [] then "" else QueryText(params) + "&"
  }

  function After(params: seq<Param>): string {
    if params == [] then "" else "&" + QueryText(params)
  }

  lemma JoinBefore(params: seq<Param>, rest: seq<string>)
    requires rest != []
    ensures Join(Pairs(params) + rest, '&') == Before(params) + Join(rest, '&')
  {
    hide Join, Pair;
    if params == [] {
      assert Pairs(params) + rest == rest;
    } else {
      JoinAppend(Pairs(params), rest, '&');
    }
  }

  lemma JoinAfter(first: string, params: seq<Param>)
    ensures Join([first] + Pairs(params), '&') == first + After(params)
  {
    hide Pair;
    if params != [] {
      JoinAppend([first], Pairs(params), '&');
    }
  }

  lemma TextAround(pre: seq<Param>, value: string, post: seq<Param>)
    ensures QueryText(pre + [Param("alpn", value)] + post) == Before(pre) + (("alpn=" + value) + After(post))
  {
    hide Join, Before, After;
    var p := Param("alpn", value);
    assert Pairs(pre + [p] + post) == Pairs(pre) + ([Pair(p)] + Pairs(post));
    assert Pair(p) == "alpn=" + value;
    JoinAfter(Pair(p), post);
    JoinBefore(pre, [Pair(p)] + Pairs(post));
  }

  lemma SplitBefore(params: seq<Param>, rest: string)
    requires AllEscaped(params)
    ensures Split(Before(params) + rest, '&') == Pairs(params) + Split(rest, '&')
  {
    hide Split, Join, Pair, Piece;
    if params == [] {
      assert Before(params) + rest == rest;
    } else {
      EscapedPieces(params, "");
      SplitJoin(Pairs(params), '&');
      SplitAppend(QueryText(params), rest, '&');
    }
  }

  lemma SplitAfter(first: string, params: seq<Param>)
    requires AllEscaped(params)
    ensures Split(first + After(params), '&') == Split(first, '&') + Pairs(params)
  {
    hide Split, Join, Pair, Piece;
    if params == [] {
      assert first + After(params) == first;
    } else {
      EscapedPieces(params, "");
      SplitJoin(Pairs(params), '&');
      SplitAppend(first, QueryText(params), '&');
      assert first + ['&'] + QueryText(params) == first + After(params);
    }
  }

  /** Nothing in the text before or after the value is a fragment mark. */
  lemma NoFragmentMark(params: seq<Param>)
    requires AllEscaped(params)
    ensures Free(Before(params), '#') && Free(After(params), '#')
  {
    hide Pair, Piece, Join;
    EscapedPieces(params, "");
    JoinSafe(Pairs(params));
  }

  /** A query whose raw value holds a fragment mark is read up to it. */
  lemma ReadCut(pre: seq<Param>, value: string, post: seq<Param>)
    requires AllEscaped(pre) && AllEscaped(post) && !Free(value, '#')
    ensures var q := ReadQuery(QueryText(pre + [Param("alpn", value)] + post));
      var part := value[..IndexOf(value, '#')];
      q.Some? ==> Printable(part) && q.value == Params(Pairs(pre) + Split("alpn=" + part, '&'))
  {
    hide Split, Join, Pair, Pairs, Piece, Params, QueryText, Unescape, Before, After;
    TextAround(pre, value, post);
    NoFragmentMark(pre);
    var h := IndexOf(value, '#');
    var text := Before(pre) + (("alpn=" + value) + After(post));
    var cut := Before(pre) + ("alpn=" + value[..h]);
    assert text[..|cut|] == cut && text[|cut|] == '#';
    IndexOfUnique(text, '#', |cut|);
    SplitBefore(pre, "alpn=" + value[..h]);
    PartPrintable(Before(pre), value[..h], "");
    assert ("alpn=" + value[..h]) + "" == "alpn=" + value[..h];
  }

  /** Any other is read whole. */
  lemma ReadWhole(pre: seq<Param>, value: string, post: seq<Param>)
    requires AllEscaped(pre) && AllEscaped(post) && Free(value, '#')
    ensures var q := ReadQuery(QueryText(pre + [Param("alpn", value)] + post));
      q.Some? ==> Printable(value) && q.value == Params(Pairs(pre) + (Split("alpn=" + value, '&') + Pairs(post)))
  {
    hide Split, Join, Pair, Pairs, Piece, Params, QueryText, Unescape, Before, After;
    TextAround(pre, value, post);
    NoFragmentMark(pre);
    NoFragmentMark(post);
    var text := Before(pre) + (("alpn=" + value) + After(post));
    IndexOfUnique(text, '#', |text|);
    assert text[..|text|] == text;
    SplitAfter("alpn=" + value, post);
    SplitBefore(pre, ("alpn=" + value) + After(post));
    PartPrintable(Before(pre), value, After(post));
  }

  lemma PartPrintable(a: string, value: string, b: string)
    ensures Printable(a + (("alpn=" + value) + b)) ==> Printable(value)
  {
    forall k | 0 <= k < |value|
      ensures (a + (("alpn=" + value) + b))[|a| + 5 + k] == value[k]
    {
    }
  }

  /** An "alpn" that is not plain is never read back as it was printed, however often the key occurs. */
  lemma AlpnLost(pre: seq<Param>, value: string, post: seq<Param>)
    requires AllEscaped(pre) && AllEscaped(post)
    requires value != "" && !Plain(value)
    ensures var q := ReadQuery(QueryText(pre + [Param("alpn", value)] + post));
      q.Some? ==> forall k :: 0 <= k < |q.value| && q.value[k].key == "alpn" ==> |q.value[k].value| <= |value| && q.value[k].value != value
  {
    hide Split, Join, Pair, Pairs, Piece, Params, QueryText, ReadQuery, Plain;
    var q := ReadQuery(QueryText(pre + [Param("alpn", value)] + post));
    if q.Some? {
      EscapedPieces(pre, value);
      EscapedPieces(post, value);
      var part := value[..IndexOf(value, '#')];
      if Free(value, '#') {
        assert part == value;
        ReadWhole(pre, value, post);
        MiddleLoses(value);
        AllLose(Pairs(pre) + (Split("alpn=" + value, '&') + Pairs(post)), value);
      } else {
        ReadCut(pre, value, post);
        MiddleLoses(value);
        AllLose(Pairs(pre) + Split("alpn=" + part, '&'), value);
      }
    }
  }

  lemma MiddleLoses(value: string)
    requires value != "" && !Plain(value)
    requires Printable(value[..IndexOf(value, '#')])
    ensures forall k :: 0 <= k < |Split("alpn=" + value[..IndexOf(value, '#')], '&')| ==>
              Loses(Split("alpn=" + value[..IndexOf(value, '#')], '&')[k], value)
  {
    hide Split, Piece, Plain;
    var part := value[..IndexOf(value, '#')];
    var text := "alpn=" + part;
    forall k | 0 <= k < |Split(text, '&')|
      ensures Loses(Split(text, '&')[k], value)
    {
      var piece := Split(text, '&')[k];
      PieceLength(text, '&', k);
      if Piece(piece).Some? && Piece(piece).value.key == "alpn" {
        assert |part| == |value| ==> part == value;
        AlpnPiece(piece, part);
      }
    }
  }

  /** An ampersand in a raw value begins a parameter of its own. */
  lemma AmpersandInjects(pre: seq<Param>, value: string, p: Param, post: seq<Param>)
    requires AllEscaped(pre) && AllEscaped(post) && Plain(value) && KeyOk(p.key) && !Raw(p.key)
    ensures ReadQuery(QueryText(pre + [Param("alpn", value + "&" + Pair(p))] + post)) == Some(pre + [Param("alpn", value), p] + post)
  {
    hide Pair, Pairs, QueryText, Piece, ReadQuery, Plain, KeyOk, Raw, Before, After;
    TextAround(pre, value + "&" + Pair(p), post);
    TextAround(pre, value, [p] + post);
    TextStart(p, post);
    assert ("alpn=" + (value + "&" + Pair(p))) + After(post) == ("alpn=" + value) + After([p] + post);
    assert pre + [Param("alpn", value)] + ([p] + post) == pre + [Param("alpn", value), p] + post;
    AlpnKey();
    QueryReadsBack(pre + [Param("alpn", value), p] + post);
  }

  lemma AlpnKey()
    ensures KeyOk("alpn") && Raw("alpn")
  {
  }

  lemma TextStart(p: Param, post: seq<Param>)
    ensures After([p] + post) == "&" + (Pair(p) + After(post))
  {
    hide Pair, Join;
    assert Pairs([p] + post) == [Pair(p)] + Pairs(post);
    JoinAfter(Pair(p), post);
  }
}
