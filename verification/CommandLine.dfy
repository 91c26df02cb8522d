/**
 * How command-line parameters are carried to the running instance: one string of options and torrent
 * sources, separated by '|', options written as name=value.
 */
module CommandLine {
  import opened Numbers
  import opened Options
  import opened Strings
  import opened Paths
  import opened CleanPaths

  const PARAMS_SEPARATOR: char := '|'
  const PARAM_ADDSTOPPED := "@addStopped"
  const PARAM_CATEGORY := "@category"
  const PARAM_FIRSTLASTPIECEPRIORITY := "@firstLastPiecePriority"
  const PARAM_SAVEPATH := "@savePath"
  const PARAM_SEQUENTIAL := "@sequential"
  const PARAM_SKIPCHECKING := "@skipChecking"
  const PARAM_SKIPDIALOG := "@skipDialog"

  /** The parameters that are passed on. */
  datatype Params = Params(
    savePath: Path, addStopped: Option<bool>, skipChecking: bool, category: string, sequential: bool,
    firstLastPiecePriority: bool, skipDialog: Option<bool>, torrentSources: seq<string>)

  const DEFAULT_PARAMS := Params("", None, false, "", false, false, None, [])

  /** QChar::isSpace. */
  predicate IsSpace(c: char) {
    c == ' ' || '\t' <= c <= '\r' || c == '\U{0085}' || c == '\U{00A0}' || c == '\U{1680}' || '\U{2000}' <= c <= '\U{200A}'
    || c == '\U{2028}' || c == '\U{2029}' || c == '\U{202F}' || c == '\U{205F}' || c == '\U{3000}'
  }

  function TrimLeft(s: string): string {
    if s != "" && IsSpace(s[0]) then TrimLeft(s[1..]) else s
  }

  function TrimRight(s: string): string {
    if s != "" && IsSpace(s[|s| - 1]) then TrimRight(s[..|s| - 1]) else s
  }

  function Trimmed(s: string): string {
    TrimRight(TrimLeft(s))
  }

  function BindParamValue(name: string, value: string): string {
    name + "=" + value
  }

  /** Name and value around the first '='. */
  function ParseParam(param: string): (string, string) {
    var sep := IndexOf(param, '=');
    if sep >= 0 then (param[..sep], param[sep + 1..]) else (param, "")
  }

  /** QString::toInt in base ten is not zero: an optional sign and digits, within the range of int. */
  predicate ToIntIsNonZero(s: string) {
    var t := Trimmed(s);
    var negative := t != "" && t[0] == '-';
    var digits := if t != "" && (t[0] == '-' || t[0] == '+') then t[1..] else t;
    digits != "" && AllDigits(digits)
    && 0 < Decimal(digits) <= if negative then 0x8000_0000 else 0x7FFF_FFFF
  }

  function Flag(b: bool): string {
    if b then "1" else "0"
  }

  // ----- Serialising -----

  const OPTION_COUNT := 7

  /** The piece for one option, if it is given; in the order they are written. */
  function OptionParam(p: Params, i: nat): seq<string>
    requires i < OPTION_COUNT
  {
    match i
    case 0 => if p.savePath != "" then [BindParamValue(PARAM_SAVEPATH, p.savePath)] else []
    case 1 => if p.addStopped.Some? then [BindParamValue(PARAM_ADDSTOPPED, Flag(p.addStopped.value))] else []
    case 2 => if p.skipChecking then [PARAM_SKIPCHECKING] else []
    case 3 => if p.category != "" then [BindParamValue(PARAM_CATEGORY, p.category)] else []
    case 4 => if p.sequential then [PARAM_SEQUENTIAL] else []
    case 5 => if p.firstLastPiecePriority then [PARAM_FIRSTLASTPIECEPRIORITY] else []
    case _ => if p.skipDialog.Some? then [BindParamValue(PARAM_SKIPDIALOG, Flag(p.skipDialog.value))] else []
  }

  function OptionParams(p: Params, n: nat): seq<string>
    requires n <= OPTION_COUNT
  {
    if n == 0 then [] else OptionParams(p, n - 1) + OptionParam(p, n - 1)
  }

  function Pieces(p: Params): seq<string> {
    OptionParams(p, OPTION_COUNT) + p.torrentSources
  }

  function Serialized(p: Params): string {
    Join(Pieces(p), PARAMS_SEPARATOR)
  }

  // ----- Parsing -----

  /** What one piece of the message says. */
  datatype Token =
    | SavePath(path: Path) | AddStopped(stopped: bool) | SkipChecking | Category(category: string) | Sequential
    | FirstLastPiecePriority | SkipDialog(skip: bool) | Source(source: string) | Nothing

  /** Which option a name stands for; OPTION_COUNT for none. */
  function OptionIndex(name: string): (i: nat)
    ensures i <= OPTION_COUNT
  {
    if name == PARAM_SAVEPATH then 0
    else if name == PARAM_ADDSTOPPED then 1
    else if name == PARAM_SKIPCHECKING then 2
    else if name == PARAM_CATEGORY then 3
    else if name == PARAM_SEQUENTIAL then 4
    else if name == PARAM_FIRSTLASTPIECEPRIORITY then 5
    else if name == PARAM_SKIPDIALOG then 6
    else OPTION_COUNT
  }

  predicate IsReserved(name: string) {
    OptionIndex(name) < OPTION_COUNT
  }

  function TokenFor(option: nat, value: string, param: string): Token {
    match option
    case 0 => SavePath(MakePath(value))
    case 1 => AddStopped(ToIntIsNonZero(value))
    case 2 => SkipChecking
    case 3 => Category(value)
    case 4 => Sequential
    case 5 => FirstLastPiecePriority
    case 6 => SkipDialog(ToIntIsNonZero(value))
    case _ => Source(param)
  }

  /** Empty pieces are skipped before the trimming, not after it. */
  function TokenOf(piece: string): Token {
    if piece == "" then Nothing
    else
      var param := Trimmed(piece);
      var (name, value) := ParseParam(param);
      TokenFor(OptionIndex(name), value, param)
  }

  function TokensOf(pieces: seq<string>): seq<Token> {
    seq(|pieces|, i requires 0 <= i < |pieces| => TokenOf(pieces[i]))
  }

  function Apply(p: Params, t: Token): Params {
    match t
    case SavePath(path) => p.(savePath := path)
    case AddStopped(stopped) => p.(addStopped := Some(stopped))
    case SkipChecking => p.(skipChecking := true)
    case Category(category) => p.(category := category)
    case Sequential => p.(sequential := true)
    case FirstLastPiecePriority => p.(firstLastPiecePriority := true)
    case SkipDialog(skip) => p.(skipDialog := Some(skip))
    case Source(source) => p.(torrentSources := p.torrentSources + [source])
    case Nothing => p
  }

  function ApplyAll(p: Params, tokens: seq<Token>): Params
    decreases |tokens|
  {
    if tokens == [] then p else Apply(ApplyAll(p, tokens[..|tokens| - 1]), tokens[|tokens| - 1])
  }

  function Parsed(s: string): Params {
    ApplyAll(DEFAULT_PARAMS, TokensOf(Split(s, PARAMS_SEPARATOR)))
  }

  /** `serializeParams`. */
  method SerializeParams(p: Params) returns (s: string)
    ensures s == Serialized(p)
  {
    var result: seq<string> := [];
    if p.savePath != "" {
      result := result + [BindParamValue(PARAM_SAVEPATH, p.savePath)];
    }
    assert result == OptionParams(p, 1);
    if p.addStopped.Some? {
      result := result + [BindParamValue(PARAM_ADDSTOPPED, Flag(p.addStopped.value))];
    }
    assert result == OptionParams(p, 2);
    if p.skipChecking {
      result := result + [PARAM_SKIPCHECKING];
    }
    assert result == OptionParams(p, 3);
    if p.category != "" {
      result := result + [BindParamValue(PARAM_CATEGORY, p.category)];
    }
    assert result == OptionParams(p, 4);
    if p.sequential {
      result := result + [PARAM_SEQUENTIAL];
    }
    assert result == OptionParams(p, 5);
    if p.firstLastPiecePriority {
      result := result + [PARAM_FIRSTLASTPIECEPRIORITY];
    }
    assert result == OptionParams(p, 6);
    if p.skipDialog.Some? {
      result := result + [BindParamValue(PARAM_SKIPDIALOG, Flag(p.skipDialog.value))];
    }
    assert result == OptionParams(p, 7);
    result := result + p.torrentSources;
    s := Join(result, PARAMS_SEPARATOR);
  }

  /** `parseParams`. */
  method ParseParams(s: string) returns (p: Params)
    ensures p == Parsed(s)
  {
    p := DEFAULT_PARAMS;
    var pieces := Split(s, PARAMS_SEPARATOR);
    for i := 0 to |pieces|
      invariant p == ApplyAll(DEFAULT_PARAMS, TokensOf(pieces[..i]))
    {
      TokensOfOneMore(DEFAULT_PARAMS, pieces, i);
      p := ParsePiece(p, pieces[i]);
    }
    assert pieces[..|pieces|] == pieces;
  }

  /** One turn of the loop over the pieces. */
  method ParsePiece(p: Params, piece: string) returns (q: Params)
    ensures q == Apply(p, TokenOf(piece))
  {
    if piece == "" {
      return p;
    }
    var param := Trimmed(piece);
    var (name, value) := ParseParam(param);
    q := HandleParam(p, name, value, param);
  }

  /** The comparisons of one parameter name with the options. */
  method HandleParam(p: Params, name: string, value: string, param: string) returns (q: Params)
    ensures q == Apply(p, TokenFor(OptionIndex(name), value, param))
  {
    if name == PARAM_SAVEPATH {
      return p.(savePath := MakePath(value));
    }
    if name == PARAM_ADDSTOPPED {
      return p.(addStopped := Some(ToIntIsNonZero(value)));
    }
    if name == PARAM_SKIPCHECKING {
      return p.(skipChecking := true);
    }
    if name == PARAM_CATEGORY {
      return p.(category := value);
    }
    if name == PARAM_SEQUENTIAL {
      return p.(sequential := true);
    }
    if name == PARAM_FIRSTLASTPIECEPRIORITY {
      return p.(firstLastPiecePriority := true);
    }
    if name == PARAM_SKIPDIALOG {
      return p.(skipDialog := Some(ToIntIsNonZero(value)));
    }
    return p.(torrentSources := p.torrentSources + [param]);
  }

  lemma TokensOfConcat(a: seq<string>, b: seq<string>)
    ensures TokensOf(a + b) == TokensOf(a) + TokensOf(b)
  {
    forall i | 0 <= i < |a + b|
      ensures TokensOf(a + b)[i] == (TokensOf(a) + TokensOf(b))[i]
    {
      assert (a + b)[i] == if i < |a| then a[i] else b[i - |a|];
    }
  }

  lemma TokensOfOneMore(p: Params, pieces: seq<string>, i: nat)
    requires i < |pieces|
    ensures ApplyAll(p, TokensOf(pieces[..i + 1])) == Apply(ApplyAll(p, TokensOf(pieces[..i])), TokenOf(pieces[i]))
  {
    hide TokenOf;
    var longer := TokensOf(pieces[..i + 1]);
    assert longer == TokensOf(pieces[..i]) + [TokenOf(pieces[i])];
    assert longer[..|longer| - 1] == TokensOf(pieces[..i]);
  }

  // ----- What is written and read -----

  /** The message, letter by letter. */
  lemma MessageIs(p: Params)
    ensures Serialized(p) == Join(
              (if p.savePath == "" then [] else ["@savePath=" + p.savePath])
              + (match p.addStopped case None => [] case Some(stopped) => [if stopped then "@addStopped=1" else "@addStopped=0"])
              + (if p.skipChecking then ["@skipChecking"] else [])
              + (if p.category == "" then [] else ["@category=" + p.category])
              + (if p.sequential then ["@sequential"] else [])
              + (if p.firstLastPiecePriority then ["@firstLastPiecePriority"] else [])
              + (match p.skipDialog case None => [] case Some(skip) => [if skip then "@skipDialog=1" else "@skipDialog=0"])
              + p.torrentSources, '|')
  {
    ValueParams(p);
    assert OptionParams(p, 0) == [];
    assert OptionParams(p, 1) == OptionParam(p, 0);
    assert OptionParams(p, 2) == OptionParams(p, 1) + OptionParam(p, 1);
    assert OptionParams(p, 3) == OptionParams(p, 2) + OptionParam(p, 2);
    assert OptionParams(p, 4) == OptionParams(p, 3) + OptionParam(p, 3);
    assert OptionParams(p, 5) == OptionParams(p, 4) + OptionParam(p, 4);
    assert OptionParams(p, 6) == OptionParams(p, 5) + OptionParam(p, 5);
    assert OptionParams(p, 7) == OptionParams(p, 6) + OptionParam(p, 6);
  }

  lemma ValueParams(p: Params)
    ensures BindParamValue(PARAM_SAVEPATH, p.savePath) == "@savePath=" + p.savePath
    ensures BindParamValue(PARAM_CATEGORY, p.category) == "@category=" + p.category
    ensures BindParamValue(PARAM_ADDSTOPPED, "1") == "@addStopped=1" && BindParamValue(PARAM_ADDSTOPPED, "0") == "@addStopped=0"
    ensures BindParamValue(PARAM_SKIPDIALOG, "1") == "@skipDialog=1" && BindParamValue(PARAM_SKIPDIALOG, "0") == "@skipDialog=0"
  {
  }

  predicate AllSpace(s: string) {
    forall i | 0 <= i < |s| :: IsSpace(s[i])
  }

  /** Whitespace is exactly these characters. */
  lemma SpacesAre(c: char)
    ensures IsSpace(c) <==> c as int in {
      0x09, 0x0A, 0x0B, 0x0C, 0x0D, 0x20, 0x85, 0xA0, 0x1680, 0x2000, 0x2001, 0x2002, 0x2003, 0x2004, 0x2005, 0x2006, 0x2007,
      0x2008, 0x2009, 0x200A, 0x2028, 0x2029, 0x202F, 0x205F, 0x3000}
  {
  }

  lemma {:induction false} TrimLeftIs(s: string) returns (front: string)
    ensures s == front + TrimLeft(s) && AllSpace(front)
    ensures TrimLeft(s) != "" ==> !IsSpace(TrimLeft(s)[0])
  {
    hide IsSpace;
    front := "";
    if s != "" && IsSpace(s[0]) {
      var rest := TrimLeftIs(s[1..]);
      front := [s[0]] + rest;
      assert s == [s[0]] + s[1..];
    }
  }

  lemma {:induction false} TrimRightIs(s: string) returns (back: string)
    ensures s == TrimRight(s) + back && AllSpace(back)
    ensures TrimRight(s) != "" ==> !IsSpace(TrimRight(s)[|TrimRight(s)| - 1]) && TrimRight(s)[0] == s[0]
    decreases |s|
  {
    hide IsSpace;
    back := "";
    if s != "" && IsSpace(s[|s| - 1]) {
      var rest := TrimRightIs(s[..|s| - 1]);
      back := rest + [s[|s| - 1]];
      assert s == s[..|s| - 1] + [s[|s| - 1]];
    }
  }

  /** Trimming takes the whitespace off both ends, all of it and nothing else. */
  lemma TrimmedIs(s: string) returns (front: string, back: string)
    ensures s == front + Trimmed(s) + back && AllSpace(front) && AllSpace(back)
    ensures var t := Trimmed(s); t != "" ==> !IsSpace(t[0]) && !IsSpace(t[|t| - 1])
  {
    hide TrimLeft;
    hide TrimRight;
    hide IsSpace;
    front := TrimLeftIs(s);
    back := TrimRightIs(TrimLeft(s));
  }

  lemma NoTrimming(s: string)
    requires s != "" && !IsSpace(s[0]) && !IsSpace(s[|s| - 1])
    ensures Trimmed(s) == s
  {
  }

  /** A number given as a flag counts as set unless it is zero. */
  lemma NumberAsFlag(n: int)
    requires -0x8000_0000 <= n <= 0x7FFF_FFFF
    ensures ToIntIsNonZero(Number(n)) <==> n != 0
  {
    hide Number;
    hide Decimal;
    hide TrimLeft;
    hide TrimRight;
    hide Trimmed;
    var m := if n < 0 then -n else n;
    var s, digits := Number(n), Number(m);
    NumberReads(m);
    assert n < 0 ==> s == "-" + digits && s[1..] == digits;
    assert IsDigit(digits[0]) && IsDigit(digits[|digits| - 1]);
    NoTrimming(s);
  }

  /** Text with any other character than digits, signs and whitespace is no number, so the flag is not set. */
  lemma OtherTextAsFlag(s: string, i: nat)
    requires i < |s| && !IsDigit(s[i]) && s[i] !in "+-" && !IsSpace(s[i])
    ensures !ToIntIsNonZero(s)
  {
    hide TrimLeft;
    hide TrimRight;
    hide Trimmed;
    hide IsSpace;
    hide Decimal;
    var front, back := TrimmedIs(s);
    var t := Trimmed(s);
    assert |front| <= i < |front| + |t| && t[i - |front|] == s[i];
    if t[0] == '-' || t[0] == '+' {
      assert t[1..][i - |front| - 1] == s[i];
    }
  }

  // ----- Round trip -----

  /** A source that is read back as itself. */
  predicate IsPlainSource(s: string) {
    s != "" && Trimmed(s) == s && !IsReserved(ParseParam(s).0)
  }

  predicate HasNoSeparator(p: Params) {
    && PARAMS_SEPARATOR !in p.savePath && PARAMS_SEPARATOR !in p.category
    && Free(p.torrentSources, PARAMS_SEPARATOR)
  }

  /** Parameters that survive the wire. */
  predicate WireSafe(p: Params) {
    && HasNoSeparator(p)
    && IsClean(p.savePath) && TrimRight(p.savePath) == p.savePath
    && TrimRight(p.category) == p.category
    && forall i | 0 <= i < |p.torrentSources| :: IsPlainSource(p.torrentSources[i])
  }

  lemma {:induction false} ApplyAllConcat(p: Params, a: seq<Token>, b: seq<Token>)
    ensures ApplyAll(p, a + b) == ApplyAll(ApplyAll(p, a), b)
    decreases |b|
  {
    if b == [] {
      assert a + b == a;
    } else {
      assert (a + b)[..|a + b| - 1] == a + b[..|b| - 1];
      ApplyAllConcat(p, a, b[..|b| - 1]);
    }
  }

  // Single pieces.

  lemma {:induction false} TrimRightAfter(front: string, s: string)
    requires front != "" && !IsSpace(front[|front| - 1])
    ensures TrimRight(front + s) == front + TrimRight(s)
    decreases |s|
  {
    if s == "" {
      assert front + s == front;
    } else if IsSpace(s[|s| - 1]) {
      assert (front + s)[..|front + s| - 1] == front + s[..|s| - 1];
      TrimRightAfter(front, s[..|s| - 1]);
    }
  }

  lemma {:induction false} TrimRightShortens(s: string)
    ensures |TrimRight(s)| <= |s| && (|TrimRight(s)| == |s| ==> TrimRight(s) == s)
    ensures TrimRight(s) <= s
    decreases |s|
  {
    if s != "" && IsSpace(s[|s| - 1]) {
      TrimRightShortens(s[..|s| - 1]);
    }
  }

  lemma FirstEquals(name: string, value: string)
    requires '=' !in name
    ensures ParseParam(name) == (name, "")
    ensures ParseParam(BindParamValue(name, value)) == (name, value)
  {
    var s := BindParamValue(name, value);
    assert s[|name|] == '=';
    assert forall k | 0 <= k < |name| :: s[k] == name[k] && name[k] != '=';
    assert IndexOf(s, '=') == |name|;
    assert s[..|name|] == name && s[|name| + 1..] == value;
  }

  /** A bound parameter is read as its name and its value without trailing whitespace. */
  lemma BoundParam(name: string, value: string)
    requires name != "" && '=' !in name && !IsSpace(name[0])
    ensures TokenOf(BindParamValue(name, value)) == TokenFor(OptionIndex(name), TrimRight(value), Trimmed(BindParamValue(name, value)))
  {
    var front := name + "=";
    assert BindParamValue(name, value) == front + value;
    assert TrimLeft(front + value) == front + value;
    TrimRightAfter(front, value);
    FirstEquals(name, TrimRight(value));
    assert BindParamValue(name, TrimRight(value)) == front + TrimRight(value);
  }

  lemma NameOnly(name: string)
    requires name != "" && '=' !in name && !IsSpace(name[0]) && !IsSpace(name[|name| - 1])
    ensures TokenOf(name) == TokenFor(OptionIndex(name), "", name)
  {
    FirstEquals(name, "");
  }

  lemma FlagsReadBack()
    ensures TrimRight("1") == "1" && TrimRight("0") == "0"
    ensures ToIntIsNonZero("1") && !ToIntIsNonZero("0")
  {
    assert Trimmed("1") == "1" && Trimmed("0") == "0";
    assert "1"[..0] == "" && "0"[..0] == "";
    assert Decimal("") == 0;
    assert Decimal("1") == Decimal("1"[..0]) * 10 + 1;
    assert Decimal("0") == Decimal("0"[..0]) * 10;
  }

  /** How the piece for an option is read. */
  function OptionToken(p: Params, i: nat): seq<Token>
    requires i < OPTION_COUNT
  {
    match i
    case 0 => if p.savePath != "" then [SavePath(MakePath(TrimRight(p.savePath)))] else []
    case 1 => if p.addStopped.Some? then [AddStopped(p.addStopped.value)] else []
    case 2 => if p.skipChecking then [SkipChecking] else []
    case 3 => if p.category != "" then [Category(TrimRight(p.category))] else []
    case 4 => if p.sequential then [Sequential] else []
    case 5 => if p.firstLastPiecePriority then [FirstLastPiecePriority] else []
    case _ => if p.skipDialog.Some? then [SkipDialog(p.skipDialog.value)] else []
  }

  lemma OptionNames()
    ensures OptionIndex(PARAM_SAVEPATH) == 0 && OptionIndex(PARAM_ADDSTOPPED) == 1 && OptionIndex(PARAM_SKIPCHECKING) == 2
    ensures OptionIndex(PARAM_CATEGORY) == 3 && OptionIndex(PARAM_SEQUENTIAL) == 4
    ensures OptionIndex(PARAM_FIRSTLASTPIECEPRIORITY) == 5 && OptionIndex(PARAM_SKIPDIALOG) == 6
  {
    assert PARAM_CATEGORY[1] != PARAM_SAVEPATH[1];
    assert PARAM_SEQUENTIAL[1] != PARAM_ADDSTOPPED[1];
    assert PARAM_SKIPDIALOG[1] != PARAM_ADDSTOPPED[1] && PARAM_SKIPDIALOG[2] != PARAM_SEQUENTIAL[2];
  }

  lemma ValueOptionIsRead(p: Params, i: nat)
    requires i in {0, 1, 3, 6} && OptionParam(p, i) != []
    ensures TokenOf(OptionParam(p, i)[0]) == OptionToken(p, i)[0]
  {
    OptionNames();
    match i {
      case 0 => BoundParam(PARAM_SAVEPATH, p.savePath);
      case 1 => FlagsReadBack(); BoundParam(PARAM_ADDSTOPPED, Flag(p.addStopped.value));
      case 3 => BoundParam(PARAM_CATEGORY, p.category);
      case _ => FlagsReadBack(); BoundParam(PARAM_SKIPDIALOG, Flag(p.skipDialog.value));
    }
  }

  lemma NameOptionIsRead(p: Params, i: nat)
    requires i in {2, 4, 5} && OptionParam(p, i) != []
    ensures TokenOf(OptionParam(p, i)[0]) == OptionToken(p, i)[0]
  {
    OptionNames();
    match i {
      case 2 => NameOnly(PARAM_SKIPCHECKING);
      case 4 => NameOnly(PARAM_SEQUENTIAL);
      case _ => NameOnly(PARAM_FIRSTLASTPIECEPRIORITY);
    }
  }

  lemma OptionIsRead(p: Params, i: nat)
    requires i < OPTION_COUNT
    ensures TokensOf(OptionParam(p, i)) == OptionToken(p, i)
  {
    if OptionParam(p, i) != [] {
      if i in {0, 1, 3, 6} {
        ValueOptionIsRead(p, i);
      } else {
        NameOptionIsRead(p, i);
      }
    }
  }

  lemma TokenForSource(option: nat, value: string, param: string, s: string)
    ensures TokenFor(option, value, param) == Source(s) <==> option >= OPTION_COUNT && param == s
  {
  }

  lemma PlainSourceIff(s: string)
    ensures TokenOf(s) == Source(s) <==> IsPlainSource(s)
  {
    if s != "" {
      var param := Trimmed(s);
      var option := OptionIndex(ParseParam(param).0);
      TokenForSource(option, ParseParam(param).1, param, s);
    }
  }

  // The whole message.

  /** The first `n` options of `p` as they are read back, and the others not given. */
  function ReadBack(p: Params, n: nat): Params {
    Params(
      if n > 0 && p.savePath != "" then MakePath(TrimRight(p.savePath)) else "",
      if n > 1 then p.addStopped else None,
      n > 2 && p.skipChecking,
      if n > 3 then TrimRight(p.category) else "",
      n > 4 && p.sequential,
      n > 5 && p.firstLastPiecePriority,
      if n > 6 then p.skipDialog else None,
      [])
  }

  function OptionTokens(p: Params, n: nat): seq<Token>
    requires n <= OPTION_COUNT
  {
    if n == 0 then [] else OptionTokens(p, n - 1) + OptionToken(p, n - 1)
  }

  lemma OneToken(p: Params, t: Token)
    ensures ApplyAll(p, [t]) == Apply(p, t)
  {
    assert [t][..0] == [];
  }

  lemma OneTokenReadBack(p: Params, i: nat)
    requires i < OPTION_COUNT
    ensures ApplyAll(ReadBack(p, i), OptionToken(p, i)) == ReadBack(p, i + 1)
  {
    hide TrimRight;
    hide MakePath;
    TrimNothing();
    var tokens := OptionToken(p, i);
    if tokens != [] {
      OneToken(ReadBack(p, i), tokens[0]);
    }
  }

  lemma TrimNothing()
    ensures TrimRight("") == ""
  {
  }

  lemma {:induction false} OptionTokensReadBack(p: Params, n: nat)
    requires n <= OPTION_COUNT
    ensures ApplyAll(DEFAULT_PARAMS, OptionTokens(p, n)) == ReadBack(p, n)
  {
    if n > 0 {
      OptionTokensReadBack(p, n - 1);
      ApplyAllConcat(DEFAULT_PARAMS, OptionTokens(p, n - 1), OptionToken(p, n - 1));
      OneTokenReadBack(p, n - 1);
    }
  }

  lemma {:induction false} OptionsAreRead(p: Params, n: nat)
    requires n <= OPTION_COUNT
    ensures TokensOf(OptionParams(p, n)) == OptionTokens(p, n)
  {
    hide TokenOf;
    hide OptionParam;
    hide OptionToken;
    if n > 0 {
      OptionsAreRead(p, n - 1);
      OptionIsRead(p, n - 1);
      TokensOfConcat(OptionParams(p, n - 1), OptionParam(p, n - 1));
    }
  }

  function SourceTokens(sources: seq<string>): seq<Token> {
    seq(|sources|, i requires 0 <= i < |sources| => Source(sources[i]))
  }

  /** A list of tokens adds exactly these sources iff it consists of them. */
  lemma {:induction false} AddsSourcesIff(q: Params, tokens: seq<Token>, sources: seq<string>)
    requires |tokens| == |sources|
    ensures |ApplyAll(q, tokens).torrentSources| <= |q.torrentSources| + |tokens|
    ensures ApplyAll(q, tokens).torrentSources == q.torrentSources + sources <==> tokens == SourceTokens(sources)
    ensures tokens == SourceTokens(sources) ==> ApplyAll(q, tokens) == q.(torrentSources := q.torrentSources + sources)
    decreases |tokens|
  {
    hide Apply;
    if tokens == [] {
      assert q.torrentSources + sources == q.torrentSources;
    } else {
      var n := |tokens| - 1;
      var before, added := ApplyAll(q, tokens[..n]).torrentSources, q.torrentSources + sources[..n];
      AddsSourcesIff(q, tokens[..n], sources[..n]);
      assert q.torrentSources + sources == added + [sources[n]];
      assert SourceTokens(sources) == SourceTokens(sources[..n]) + [Source(sources[n])];
      assert tokens == tokens[..n] + [tokens[n]];
      ApplySources(ApplyAll(q, tokens[..n]), tokens[n]);
      SameEnd(before, added, tokens[n], sources[n]);
    }
  }

  lemma ApplySources(p: Params, t: Token)
    ensures Apply(p, t).torrentSources == p.torrentSources + if t.Source? then [t.source] else []
    ensures t.Source? ==> Apply(p, t) == p.(torrentSources := p.torrentSources + [t.source])
  {
  }

  /** Adding one token to a list that is not longer gives the longer list only if nothing was missing. */
  lemma SameEnd(before: seq<string>, added: seq<string>, t: Token, source: string)
    requires |before| <= |added|
    ensures (if t.Source? then before + [t.source] else before) == added + [source]
            <==> before == added && t == Source(source)
  {
    if t.Source? && before + [t.source] == added + [source] {
      assert before == (before + [t.source])[..|before|] == (added + [source])[..|added|] == added;
      assert t.source == (before + [t.source])[|before|] == (added + [source])[|added|] == source;
    }
  }

  lemma OptionHasNoSeparator(p: Params, i: nat)
    requires i < OPTION_COUNT && HasNoSeparator(p)
    ensures Free(OptionParam(p, i), PARAMS_SEPARATOR)
  {
    match i {
      case 0 => assert PARAMS_SEPARATOR !in PARAM_SAVEPATH;
      case 1 => assert PARAMS_SEPARATOR !in PARAM_ADDSTOPPED;
      case 2 => assert PARAMS_SEPARATOR !in PARAM_SKIPCHECKING;
      case 3 => assert PARAMS_SEPARATOR !in PARAM_CATEGORY;
      case 4 => assert PARAMS_SEPARATOR !in PARAM_SEQUENTIAL;
      case 5 => assert PARAMS_SEPARATOR !in PARAM_FIRSTLASTPIECEPRIORITY;
      case _ => assert PARAMS_SEPARATOR !in PARAM_SKIPDIALOG;
    }
  }

  lemma {:induction false} OptionsHaveNoSeparator(p: Params, n: nat)
    requires n <= OPTION_COUNT && HasNoSeparator(p)
    ensures Free(OptionParams(p, n), PARAMS_SEPARATOR)
  {
    hide OptionParam;
    if n > 0 {
      OptionsHaveNoSeparator(p, n - 1);
      OptionHasNoSeparator(p, n - 1);
    }
  }

  lemma EmptyMessage()
    ensures Parsed("") == ApplyAll(DEFAULT_PARAMS, TokensOf([]))
  {
    assert Split("", PARAMS_SEPARATOR) == [""];
    var tokens := TokensOf([""]);
    assert tokens == [Nothing] && tokens[..0] == TokensOf([]);
    assert ApplyAll(DEFAULT_PARAMS, tokens) == Apply(ApplyAll(DEFAULT_PARAMS, tokens[..0]), Nothing);
  }

  /** Without separators inside, the pieces arrive as they were written. */
  lemma PiecesArrive(p: Params)
    requires HasNoSeparator(p)
    ensures Parsed(Serialized(p)) == ApplyAll(ReadBack(p, OPTION_COUNT), TokensOf(p.torrentSources))
  {
    var pieces := Pieces(p);
    OptionsHaveNoSeparator(p, OPTION_COUNT);
    OptionsAreRead(p, OPTION_COUNT);
    OptionTokensReadBack(p, OPTION_COUNT);
    TokensOfConcat(OptionParams(p, OPTION_COUNT), p.torrentSources);
    ApplyAllConcat(DEFAULT_PARAMS, OptionTokens(p, OPTION_COUNT), TokensOf(p.torrentSources));
    if pieces == [] {
      EmptyMessage();
    } else {
      SplitJoin(pieces, PARAMS_SEPARATOR);
    }
  }

  /** The strings of a token hold no separator. */
  predicate TokenHasNoSeparator(t: Token) {
    match t
    case SavePath(path) => PARAMS_SEPARATOR !in path
    case Category(category) => PARAMS_SEPARATOR !in category
    case Source(source) => PARAMS_SEPARATOR !in source
    case _ => true
  }

  lemma {:induction false} ApplyAllKeepsFree(q: Params, tokens: seq<Token>)
    requires HasNoSeparator(q) && forall i | 0 <= i < |tokens| :: TokenHasNoSeparator(tokens[i])
    ensures HasNoSeparator(ApplyAll(q, tokens))
    decreases |tokens|
  {
    if tokens != [] {
      ApplyAllKeepsFree(q, tokens[..|tokens| - 1]);
    }
  }

  lemma {:induction false} TrimLeftIsPart(s: string, c: char)
    requires c !in s
    ensures c !in TrimLeft(s)
  {
    if s != "" && IsSpace(s[0]) {
      TrimLeftIsPart(s[1..], c);
    }
  }

  lemma TokenForKeepsFree(option: nat, value: string, param: string)
    requires PARAMS_SEPARATOR !in value && PARAMS_SEPARATOR !in param
    ensures TokenHasNoSeparator(TokenFor(option, value, param))
  {
    MakePathCleans(value);
    CleanPathKeepsFree(value, PARAMS_SEPARATOR);
  }

  lemma TrimmedIsPart(s: string, c: char)
    requires c !in s
    ensures c !in Trimmed(s) && c !in ParseParam(Trimmed(s)).1
  {
    TrimLeftIsPart(s, c);
    TrimRightShortens(TrimLeft(s));
  }

  lemma TokenKeepsFree(piece: string)
    requires PARAMS_SEPARATOR !in piece
    ensures TokenHasNoSeparator(TokenOf(piece))
  {
    TrimmedIsPart(piece, PARAMS_SEPARATOR);
    var (name, value) := ParseParam(Trimmed(piece));
    TokenForKeepsFree(OptionIndex(name), value, Trimmed(piece));
  }

  /** Whatever is parsed, no string of it holds a separator. */
  lemma ParsedHasNoSeparator(s: string)
    ensures HasNoSeparator(Parsed(s))
  {
    var pieces := Split(s, PARAMS_SEPARATOR);
    JoinSplit(s, PARAMS_SEPARATOR);
    forall i | 0 <= i < |pieces|
      ensures TokenHasNoSeparator(TokensOf(pieces)[i])
    {
      TokenKeepsFree(pieces[i]);
    }
    ApplyAllKeepsFree(DEFAULT_PARAMS, TokensOf(pieces));
  }

  lemma PlainSourcesIff(sources: seq<string>)
    ensures TokensOf(sources) == SourceTokens(sources) <==> forall i | 0 <= i < |sources| :: IsPlainSource(sources[i])
  {
    forall i | 0 <= i < |sources|
      ensures TokensOf(sources)[i] == SourceTokens(sources)[i] <==> IsPlainSource(sources[i])
    {
      PlainSourceIff(sources[i]);
    }
  }

  /** The options that come back as they were are those without trailing whitespace, with a clean path. */
  lemma OptionsUnchangedIff(p: Params)
    ensures ReadBack(p, OPTION_COUNT) == p.(torrentSources := []) <==>
            IsClean(p.savePath) && TrimRight(p.savePath) == p.savePath && TrimRight(p.category) == p.category
  {
    var trimmed := TrimRight(p.savePath);
    TrimRightShortens(p.savePath);
    MakePathCleans(trimmed);
    CleanPathShrinks(trimmed);
  }

  /** The parameters come back from the wire exactly when they are wire-safe. */
  lemma RoundTripIff(p: Params)
    ensures Parsed(Serialized(p)) == p <==> WireSafe(p)
  {
    ParsedHasNoSeparator(Serialized(p));
    if HasNoSeparator(p) {
      var q := ReadBack(p, OPTION_COUNT);
      PiecesArrive(p);
      assert [] + p.torrentSources == p.torrentSources;
      AddsSourcesIff(q, TokensOf(p.torrentSources), p.torrentSources);
      PlainSourcesIff(p.torrentSources);
      OptionsUnchangedIff(p);
    }
  }
}
