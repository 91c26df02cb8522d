/** Filling in the external-program template with the values of a torrent. */
module TemplateExpansion {
  import opened Numbers
  import opened Options
  import opened Strings

  const MARK: char := '%'

  /** The values a template can ask for. */
  datatype Torrent = Torrent(
    filesCount: nat, savePath: string, contentPath: string, tags: seq<string>, infoHashV1: Option<string>,
    infoHashV2: Option<string>, id: string, category: string, name: string, rootPath: string,
    currentTracker: string, totalSize: int)

  /** What a specifier stands for, if it is one. */
  function ValueOf(t: Torrent, specifier: char): Option<string> {
    match specifier
    case 'C' => Some(Number(t.filesCount))
    case 'D' => Some(t.savePath)
    case 'F' => Some(t.contentPath)
    case 'G' => Some(Join(t.tags, ','))
    case 'I' => Some(t.infoHashV1.GetOr("-"))
    case 'J' => Some(t.infoHashV2.GetOr("-"))
    case 'K' => Some(t.id)
    case 'L' => Some(t.category)
    case 'N' => Some(t.name)
    case 'R' => Some(t.rootPath)
    case 'T' => Some(t.currentTracker)
    case 'Z' => Some(Number(t.totalSize))
    case _ => None
  }

  predicate IsSpecifier(c: char) {
    c in {'C', 'D', 'F', 'G', 'I', 'J', 'K', 'L', 'N', 'R', 'T', 'Z'}
  }

  lemma MarkIsNoSpecifier()
    ensures !IsSpecifier(MARK)
  {
  }

  lemma SpecifierIffValue(t: Torrent, c: char)
    ensures ValueOf(t, c).Some? <==> IsSpecifier(c)
    ensures IsSpecifier(c) ==> c != MARK
  {
  }

  // ----- The single pass -----

  /** A piece of a template: a variable or a character that stands for itself. */
  datatype Piece = Variable(specifier: char) | Literal(c: char)

  /** The pieces from position `i` on, read from left to right off the template alone. */
  function Pieces(template: string, i: nat): seq<Piece>
    requires i <= |template|
    decreases |template| - i
  {
    if i == |template| then []
    else if template[i] == MARK && i + 1 < |template| && IsSpecifier(template[i + 1]) then
      [Variable(template[i + 1])] + Pieces(template, i + 2)
    else [Literal(template[i])] + Pieces(template, i + 1)
  }

  function PieceText(p: Piece): string {
    match p
    case Variable(specifier) => [MARK, specifier]
    case Literal(c) => [c]
  }

  function PieceValue(t: Torrent, p: Piece): string {
    match p
    case Variable(specifier) => ValueOf(t, specifier).GetOr([MARK, specifier])
    case Literal(c) => [c]
  }

  function TextOf(pieces: seq<Piece>): string {
    if pieces == [] then "" else PieceText(pieces[0]) + TextOf(pieces[1..])
  }

  /** Every variable replaced by its value, each value taken over as it is. */
  function Filled(t: Torrent, pieces: seq<Piece>): string {
    if pieces == [] then "" else PieceValue(t, pieces[0]) + Filled(t, pieces[1..])
  }

  /** The piece a template begins with at `i`, and the rest. */
  lemma FirstPiece(template: string, i: nat)
    requires i < |template|
    ensures Pieces(template, i) != []
    ensures var p := Pieces(template, i)[0];
            var next := i + |PieceText(p)|;
            && i < next <= |template| && template[i..next] == PieceText(p)
            && Pieces(template, i) == [p] + Pieces(template, next)
  {
    hide IsSpecifier;
  }

  lemma TextOfCons(p: Piece, rest: seq<Piece>)
    ensures TextOf([p] + rest) == PieceText(p) + TextOf(rest)
  {
    assert ([p] + rest)[1..] == rest;
  }

  /** The pieces are nothing but the template. */
  lemma {:induction false} PiecesAreTemplate(template: string, i: nat)
    requires i <= |template|
    ensures TextOf(Pieces(template, i)) == template[i..]
    decreases |template| - i
  {
    if i < |template| {
      AllPiecesAreTemplate(template, i);
    }
  }

  lemma {:induction false} AllPiecesAreTemplate(template: string, i: nat)
    requires i < |template|
    ensures TextOf(Pieces(template, i)) == template[i..]
    decreases |template| - i
  {
    hide Pieces;
    hide PieceText;
    hide TextOf;
    FirstPiece(template, i);
    var p := Pieces(template, i)[0];
    var next := i + |PieceText(p)|;
    if next < |template| {
      AllPiecesAreTemplate(template, next);
    } else {
      NoPieces(template);
    }
    TextOfCons(p, Pieces(template, next));
    assert template[i..] == template[i..next] + template[next..];
  }

  lemma NoPieces(template: string)
    ensures Pieces(template, |template|) == [] && TextOf([]) == ""
  {
  }

  /** Every mark before a specifier is a variable of the template, at its own place. */
  lemma {:induction false} EveryVariableIsFound(template: string, j: nat, i: nat) returns (k: nat)
    requires j <= i && i + 1 < |template| && template[i] == MARK && IsSpecifier(template[i + 1])
    ensures k < |Pieces(template, j)|
    ensures Pieces(template, j)[k] == Variable(template[i + 1]) && TextOf(Pieces(template, j)[..k]) == template[j..i]
    decreases i - j
  {
    hide IsSpecifier;
    hide Pieces;
    hide TextOf;
    hide PieceText;
    FirstPiece(template, j);
    var pieces := Pieces(template, j);
    if j == i {
      k := 0;
      PiecesAt(template, j);
      NoPieces(template);
      assert pieces[..0] == [];
    } else {
      MarkIsNoSpecifier();
      var p := pieces[0];
      var next := j + |PieceText(p)|;
      PieceEndsBefore(template, j, i);
      var k' := EveryVariableIsFound(template, next, i);
      k := k' + 1;
      assert pieces[..k] == [p] + Pieces(template, next)[..k'];
      TextOfCons(p, Pieces(template, next)[..k']);
      assert template[j..i] == template[j..next] + template[next..i];
    }
  }

  /** No piece reaches beyond a mark behind its beginning. */
  lemma PieceEndsBefore(template: string, j: nat, i: nat)
    requires j < i < |template| && template[i] == MARK
    ensures Pieces(template, j) != [] && j + |PieceText(Pieces(template, j)[0])| <= i
  {
    hide IsSpecifier;
    hide Pieces;
    PiecesAt(template, j);
    MarkIsNoSpecifier();
  }

  // ----- The loop -----

  /** The loop takes the mark at `i` together with the character after it, unless that was taken as a mark before. */
  predicate TakenAt(template: string, i: nat)
    decreases |template| - i
  {
    i + 1 < |template| && template[i] == MARK && !TakenAt(template, i + 1)
  }

  /** The number of marks from `i` on. */
  function MarksFrom(template: string, i: nat): nat
    decreases |template| - i
  {
    if i < |template| && template[i] == MARK then 1 + MarksFrom(template, i + 1) else 0
  }

  /** In a row of marks the loop takes every other one, counted from the end of the row. */
  lemma {:induction false} TakenIffParity(template: string, i: nat)
    requires i < |template|
    ensures i + MarksFrom(template, i) <= |template|
    ensures TakenAt(template, i) <==>
            template[i] == MARK
            && MarksFrom(template, i) % 2 == if i + MarksFrom(template, i) < |template| then 1 else 0
    decreases |template| - i
  {
    if i + 1 < |template| {
      TakenIffParity(template, i + 1);
    }
  }

  /** What the loop leaves of the template from `i` on. */
  function LoopResult(t: Torrent, template: string, i: nat): string
    requires i <= |template|
    decreases |template| - i
  {
    if i == |template| then ""
    else if TakenAt(template, i) then
      ValueOf(t, template[i + 1]).GetOr(template[i..i + 2]) + LoopResult(t, template, i + 2)
    else [template[i]] + LoopResult(t, template, i + 1)
  }

  /** The loop fills in exactly the variables of the single pass: marks it takes in pairs stay as they are. */
  lemma {:induction false} LoopResultIsSinglePass(t: Torrent, template: string, i: nat)
    requires i <= |template|
    ensures LoopResult(t, template, i) == Filled(t, Pieces(template, i))
    decreases |template| - i
  {
    hide TakenAt;
    hide LoopResult;
    hide Filled;
    hide Pieces;
    if i == |template| {
      NothingLeft(t, template);
    } else if TakenAt(template, i) {
      TakenAhead(template, i);
      LoopResultIsSinglePass(t, template, i + 2);
      if IsSpecifier(template[i + 1]) {
        VariableStep(t, template, i);
      } else {
        PairStep(t, template, i);
      }
    } else {
      LoopResultIsSinglePass(t, template, i + 1);
      LiteralStep(t, template, i);
    }
  }

  lemma NothingLeft(t: Torrent, template: string)
    ensures LoopResult(t, template, |template|) == Filled(t, Pieces(template, |template|))
  {
  }

  lemma TakenAhead(template: string, i: nat)
    requires TakenAt(template, i)
    ensures i + 1 < |template| && template[i] == MARK && !TakenAt(template, i + 1)
  {
  }

  lemma FilledCons(t: Torrent, p: Piece, rest: seq<Piece>)
    ensures Filled(t, [p] + rest) == PieceValue(t, p) + Filled(t, rest)
  {
    assert ([p] + rest)[1..] == rest;
  }

  lemma PiecesAt(template: string, i: nat)
    requires i < |template|
    ensures Pieces(template, i) ==
            if template[i] == MARK && i + 1 < |template| && IsSpecifier(template[i + 1])
            then [Variable(template[i + 1])] + Pieces(template, i + 2)
            else [Literal(template[i])] + Pieces(template, i + 1)
  {
    hide IsSpecifier;
  }

  lemma LoopResultAt(t: Torrent, template: string, i: nat)
    requires i < |template|
    ensures LoopResult(t, template, i) ==
            if TakenAt(template, i) then ValueOf(t, template[i + 1]).GetOr(template[i..i + 2]) + LoopResult(t, template, i + 2)
            else [template[i]] + LoopResult(t, template, i + 1)
  {
    hide ValueOf;
  }

  /** What the loop does not take is no variable: the character behind it is a mark, or it is none itself. */
  lemma NotTakenIsLiteral(template: string, i: nat)
    requires i < |template| && !TakenAt(template, i)
    ensures Pieces(template, i) == [Literal(template[i])] + Pieces(template, i + 1)
  {
    hide IsSpecifier;
    hide Pieces;
    MarkIsNoSpecifier();
    PiecesAt(template, i);
    assert i + 1 < |template| && template[i + 1] != MARK ==> !TakenAt(template, i + 1);
  }

  /** The loop takes a mark that stands before a specifier. */
  lemma VariableStep(t: Torrent, template: string, i: nat)
    requires TakenAt(template, i) && i + 1 < |template| && IsSpecifier(template[i + 1])
    ensures var value := ValueOf(t, template[i + 1]).GetOr(template[i..i + 2]);
            && Filled(t, Pieces(template, i)) == value + Filled(t, Pieces(template, i + 2))
            && LoopResult(t, template, i) == value + LoopResult(t, template, i + 2)
  {
    hide IsSpecifier;
    hide ValueOf;
    hide Filled;
    hide Pieces;
    hide LoopResult;
    TakenAhead(template, i);
    PiecesAt(template, i);
    LoopResultAt(t, template, i);
    FilledCons(t, Variable(template[i + 1]), Pieces(template, i + 2));
    assert template[i..i + 2] == [MARK, template[i + 1]];
  }

  /** One that stands before anything else stays with the character behind it, which begins no variable. */
  lemma PairStep(t: Torrent, template: string, i: nat)
    requires TakenAt(template, i) && i + 1 < |template| && !IsSpecifier(template[i + 1])
    ensures Filled(t, Pieces(template, i)) == template[i..i + 2] + Filled(t, Pieces(template, i + 2))
    ensures LoopResult(t, template, i) == template[i..i + 2] + LoopResult(t, template, i + 2)
  {
    hide IsSpecifier;
    hide ValueOf;
    hide Filled;
    hide Pieces;
    hide LoopResult;
    hide TakenAt;
    SpecifierIffValue(t, template[i + 1]);
    TakenAhead(template, i);
    PiecesAt(template, i);
    NotTakenIsLiteral(template, i + 1);
    LoopResultAt(t, template, i);
    FilledCons(t, Literal(template[i]), Pieces(template, i + 1));
    FilledCons(t, Literal(template[i + 1]), Pieces(template, i + 2));
    assert template[i..i + 2] == [template[i]] + [template[i + 1]];
  }

  lemma LiteralStep(t: Torrent, template: string, i: nat)
    requires i < |template| && !TakenAt(template, i)
    ensures Filled(t, Pieces(template, i)) == [template[i]] + Filled(t, Pieces(template, i + 1))
    ensures LoopResult(t, template, i) == [template[i]] + LoopResult(t, template, i + 1)
  {
    hide IsSpecifier;
    hide ValueOf;
    hide Filled;
    hide Pieces;
    hide LoopResult;
    hide TakenAt;
    NotTakenIsLiteral(template, i);
    LoopResultAt(t, template, i);
    FilledCons(t, Literal(template[i]), Pieces(template, i + 1));
  }

  /** A template of one variable, and what it becomes. */
  lemma OneVariable(t: Torrent, c: char)
    requires IsSpecifier(c)
    ensures ValueOf(t, c).Some? && Filled(t, Pieces([MARK, c], 0)) == ValueOf(t, c).value
  {
    hide IsSpecifier;
    hide ValueOf;
    hide Filled;
    var template := [MARK, c];
    SpecifierIffValue(t, c);
    PiecesAt(template, 0);
    NothingLeft(t, template);
    FilledCons(t, Variable(c), Pieces(template, 2));
    FilledNothing(t);
  }

  lemma FilledNothing(t: Torrent)
    ensures Filled(t, []) == ""
  {
  }

  /** What each variable stands for. */
  lemma VariablesMean(t: Torrent)
    ensures Filled(t, Pieces("%N", 0)) == t.name && Filled(t, Pieces("%L", 0)) == t.category
    ensures Filled(t, Pieces("%G", 0)) == Join(t.tags, ',') && Filled(t, Pieces("%T", 0)) == t.currentTracker
    ensures Filled(t, Pieces("%F", 0)) == t.contentPath && Filled(t, Pieces("%R", 0)) == t.rootPath
    ensures Filled(t, Pieces("%D", 0)) == t.savePath && Filled(t, Pieces("%C", 0)) == Number(t.filesCount)
    ensures Filled(t, Pieces("%Z", 0)) == Number(t.totalSize) && Filled(t, Pieces("%K", 0)) == t.id
    ensures Filled(t, Pieces("%I", 0)) == if t.infoHashV1.Some? then t.infoHashV1.value else "-"
    ensures Filled(t, Pieces("%J", 0)) == if t.infoHashV2.Some? then t.infoHashV2.value else "-"
  {
    hide Filled;
    hide Pieces;
    hide Number;
    OneVariable(t, 'N');
    OneVariable(t, 'L');
    OneVariable(t, 'G');
    OneVariable(t, 'T');
    OneVariable(t, 'F');
    OneVariable(t, 'R');
    OneVariable(t, 'D');
    OneVariable(t, 'C');
    OneVariable(t, 'Z');
    OneVariable(t, 'K');
    OneVariable(t, 'I');
    OneVariable(t, 'J');
  }

  /** `replaceVariables`: rewrites the string in place from right to left. */
  method ReplaceVariables(t: Torrent, template: string) returns (str: string)
    ensures str == Filled(t, Pieces(template, 0))
  {
    str := template;
    var i := |str| - 2;
    while i >= 0
      invariant -2 <= i <= |template| - 2
      invariant i >= -1 ==> !TakenAt(template, i + 1)
      invariant str == template[..i + 2] + LoopResult(t, template, i + 2)
    {
      ghost var n: nat := i + 2;
      ghost var tail := LoopResult(t, template, n);
      assert str[i] == template[i] && str[i + 1] == template[i + 1];
      if str[i] != MARK {
        assert template[..n] == template[..i + 1] + [template[i + 1]];
        i := i - 1;
        continue;
      }
      match ValueOf(t, str[i + 1]) {
        case Some(value) =>
          assert str[..i] == template[..i] && str[i + 2..] == tail;
          str := str[..i] + value + str[i + 2..];
        case None =>
          assert template[..n] == template[..i] + template[i..n];
      }
      assert str == template[..i] + LoopResult(t, template, i);
      i := i - 2;
    }
    if i == -1 {
      assert template[..1] == [template[0]];
    }
    LoopResultIsSinglePass(t, template, 0);
  }
}
