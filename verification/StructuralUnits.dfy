/** Cutting a module's lines into units that follow its definitions. */
module StructuralUnits {
  import opened Wrappers

  /** A definition with its line range, decorators included, and the ends of its own statements.
      A function lists the definitions nearest inside it, a class those directly in its body. */
  datatype Def =
    | Func(name: string, start: nat, end: nat, breaks: seq<nat>, inner: seq<Def>)
    | Class(name: string, start: nat, end: nat, breaks: seq<nat>, inner: seq<Def>)

  /** Definitions follow each other on distinct lines between two bounds, as the parser gives them. */
  predicate Ordered(defs: seq<Def>, first: int, last: int)
    decreases defs
  {
    defs == [] || (first <= defs[0].start && WellFormed(defs[0]) && defs[0].end <= last
                   && Ordered(defs[1..], defs[0].end + 1, last))
  }

  predicate WellFormed(d: Def)
    decreases d
  {
    1 <= d.start <= d.end && Ordered(d.inner, d.start, d.end)
  }

  datatype UnitKind = ModuleText | ClassText | FunctionText | MethodText

  datatype Unit = Unit(start: nat, end: nat, kind: UnitKind, symbol: Option<string>, qualified: Option<string>,
                       parent: Option<string>, breaks: seq<nat>)
  {
    predicate Contains(line: int) {
      start <= line <= end
    }
  }

  function Qualified(parent: Option<string>, name: string): string {
    if parent.Some? then parent.value + "." + name else name
  }

  /** The unit of a definition's own text, from line `start` to `end`. */
  function OwnUnit(d: Def, parent: Option<string>, start: nat, end: nat, kind: UnitKind, breaks: seq<nat>): Unit {
    Unit(start, end, kind, Some(d.name), Some(Qualified(parent, d.name)), parent, breaks)
  }

  function ModuleGap(start: nat, end: nat): Unit {
    Unit(start, end, ModuleText, None, None, None, [])
  }

  // ----------------------------------------------------------------------------- the units

  /** A function is one unit, and what is defined inside it comes again after it. A class is cut
      around the definitions in its body. */
  function UnitsOf(d: Def, parent: Option<string>, inClass: bool): seq<Unit>
    decreases d
  {
    match d
    case Func(name, start, end, breaks, inner) =>
      [OwnUnit(d, parent, start, end, if inClass then MethodText else FunctionText, breaks)]
      + UnitsInside(inner, Some(Qualified(parent, name)))
    case Class(name, start, end, breaks, inner) =>
      if inner == [] then [OwnUnit(d, parent, start, end, ClassText, breaks)]
      else Tiled(inner, start, end, OwnUnit(d, parent, start, end, ClassText, []), Some(Qualified(parent, name)))
  }

  function UnitsInside(defs: seq<Def>, parent: Option<string>): seq<Unit>
    decreases defs
  {
    if defs == [] then [] else UnitsOf(defs[0], parent, false) + UnitsInside(defs[1..], parent)
  }

  /** The units of definitions in a row, with the lines between them as units like `gap`. */
  function Tiled(defs: seq<Def>, cursor: nat, last: nat, gap: Unit, parent: Option<string>): seq<Unit>
    decreases defs
  {
    if defs == [] then if cursor <= last then [gap.(start := cursor, end := last)] else []
    else
      (if cursor < defs[0].start then [gap.(start := cursor, end := defs[0].start - 1)] else [])
      + UnitsOf(defs[0], parent, gap.kind == ClassText)
      + Tiled(defs[1..], defs[0].end + 1, last, gap, parent)
  }

  lemma TiledStep(units: seq<Unit>, defs: seq<Def>, i: nat, cursor: nat, last: nat, gap: Unit, parent: Option<string>)
    requires i < |defs|
    ensures var before := if cursor < defs[i].start then [gap.(start := cursor, end := defs[i].start - 1)] else [];
            units + Tiled(defs[i..], cursor, last, gap, parent)
            == units + before + UnitsOf(defs[i], parent, gap.kind == ClassText)
               + Tiled(defs[i + 1..], defs[i].end + 1, last, gap, parent)
  {
    hide UnitsOf;
    assert defs[i..][1..] == defs[i + 1..];
  }

  lemma TiledEnd(cursor: nat, last: nat, gap: Unit, parent: Option<string>)
    ensures Tiled([], cursor, last, gap, parent) == if cursor <= last then [gap.(start := cursor, end := last)] else []
  {
  }

  method FunctionUnits(d: Def, parent: Option<string>, inClass: bool) returns (units: seq<Unit>)
    requires d.Func?
    ensures units == UnitsOf(d, parent, inClass)
    decreases d, 0
  {
    var qualified := Qualified(parent, d.name);
    units := [OwnUnit(d, parent, d.start, d.end, if inClass then MethodText else FunctionText, d.breaks)];
    for i := 0 to |d.inner|
      invariant units + UnitsInside(d.inner[i..], Some(qualified)) == UnitsOf(d, parent, inClass)
    {
      var nested := DefinitionUnits(d.inner[i], Some(qualified), false);
      assert d.inner[i..][1..] == d.inner[i + 1..];
      units := units + nested;
    }
  }

  method ClassUnits(d: Def, parent: Option<string>) returns (units: seq<Unit>)
    requires d.Class?
    ensures units == UnitsOf(d, parent, false) == UnitsOf(d, parent, true)
    decreases d, 0
  {
    if d.inner == [] {
      return [OwnUnit(d, parent, d.start, d.end, ClassText, d.breaks)];
    }
    var own := OwnUnit(d, parent, d.start, d.end, ClassText, []);
    units := TileUnits(d.inner, d.start, d.end, own, Some(Qualified(parent, d.name)));
  }

  /** The loop of classes and modules: a cursor moves past each definition, and lines it has not
      reached when one starts become a unit of their own. */
  method TileUnits(defs: seq<Def>, first: nat, last: nat, gap: Unit, parent: Option<string>) returns (units: seq<Unit>)
    ensures units == Tiled(defs, first, last, gap, parent)
    decreases defs, 2
  {
    hide UnitsOf, Tiled;
    units := [];
    var cursor: nat := first;
    assert defs[0..] == defs;
    for i := 0 to |defs|
      invariant units + Tiled(defs[i..], cursor, last, gap, parent) == Tiled(defs, first, last, gap, parent)
    {
      TiledStep(units, defs, i, cursor, last, gap, parent);
      if cursor < defs[i].start {
        units := units + [gap.(start := cursor, end := defs[i].start - 1)];
      } else {
        units := units + [];
      }
      var inside := DefinitionUnits(defs[i], parent, gap.kind == ClassText);
      units := units + inside;
      cursor := defs[i].end + 1;
    }
    assert defs[|defs|..] == [];
    TiledEnd(cursor, last, gap, parent);
    if cursor <= last {
      units := units + [gap.(start := cursor, end := last)];
    }
  }

  method DefinitionUnits(d: Def, parent: Option<string>, inClass: bool) returns (units: seq<Unit>)
    ensures units == UnitsOf(d, parent, inClass)
    decreases d, 1
  {
    if d.Class? {
      units := ClassUnits(d, parent);
    } else {
      units := FunctionUnits(d, parent, inClass);
    }
  }

  method ModuleUnits(defs: seq<Def>, lineCount: nat) returns (units: seq<Unit>)
    ensures units == Tiled(defs, 1, lineCount, ModuleGap(1, lineCount), None)
  {
    units := TileUnits(defs, 1, lineCount, ModuleGap(1, lineCount), None);
  }

  // ---------------------------------------------------------------- how often a line is covered

  function Count(units: seq<Unit>, line: int): nat {
    if units == [] then 0 else (if units[0].Contains(line) then 1 else 0) + Count(units[1..], line)
  }

  lemma {:induction false} CountAppend(a: seq<Unit>, b: seq<Unit>, line: int)
    ensures Count(a + b, line) == Count(a, line) + Count(b, line)
  {
    if a == [] {
      assert a + b == b;
    } else {
      assert (a + b)[1..] == a[1..] + b;
      CountAppend(a[1..], b, line);
    }
  }

  /** How many scopes show a line: every function around it, and the innermost class or none. */
  function Depth(d: Def, line: int): nat
    decreases d
  {
    if !(d.start <= line <= d.end) then 0
    else
      match d
      case Func(_, _, _, _, inner) => 1 + DepthInside(inner, line)
      case Class(_, _, _, _, inner) => if DepthInside(inner, line) == 0 then 1 else DepthInside(inner, line)
  }

  function DepthInside(defs: seq<Def>, line: int): nat
    decreases defs
  {
    if defs == [] then 0
    else if defs[0].start <= line <= defs[0].end then Depth(defs[0], line)
    else DepthInside(defs[1..], line)
  }

  lemma {:induction false} NothingEarlier(defs: seq<Def>, first: int, last: int, line: int)
    requires Ordered(defs, first, last) && !(first <= line <= last)
    ensures DepthInside(defs, line) == 0
    decreases defs
  {
    if defs != [] {
      NothingEarlier(defs[1..], defs[0].end + 1, last, line);
    }
  }

  lemma {:induction false} UnitsCountDepth(d: Def, parent: Option<string>, inClass: bool, line: int)
    requires WellFormed(d)
    ensures Count(UnitsOf(d, parent, inClass), line) == Depth(d, line)
    decreases d
  {
    hide Qualified;
    var inside := Some(Qualified(parent, d.name));
    if !(d.start <= line <= d.end) {
      NothingEarlier(d.inner, d.start, d.end, line);
    }
    if d.Func? {
      InsideCountsDepth(d.inner, inside, d.start, d.end, line);
    } else if d.inner != [] {
      TiledCountsDepth(d.inner, d.start, d.end, OwnUnit(d, parent, d.start, d.end, ClassText, []), inside, line);
    }
  }

  lemma {:induction false} InsideCountsDepth(defs: seq<Def>, parent: Option<string>, first: int, last: int, line: int)
    requires Ordered(defs, first, last)
    ensures Count(UnitsInside(defs, parent), line) == DepthInside(defs, line)
    decreases defs
  {
    hide UnitsOf, Depth;
    if defs != [] {
      UnitsCountDepth(defs[0], parent, false, line);
      InsideCountsDepth(defs[1..], parent, defs[0].end + 1, last, line);
      CountAppend(UnitsOf(defs[0], parent, false), UnitsInside(defs[1..], parent), line);
      OneAtATime(defs, first, last, line);
    }
  }

  lemma OneAtATime(defs: seq<Def>, first: int, last: int, line: int)
    requires defs != [] && Ordered(defs, first, last)
    ensures DepthInside(defs, line) == Depth(defs[0], line) + DepthInside(defs[1..], line)
  {
    if defs[0].start <= line <= defs[0].end {
      NothingEarlier(defs[1..], defs[0].end + 1, last, line);
    }
  }

  lemma {:induction false} TiledCountsDepth(defs: seq<Def>, cursor: nat, last: nat, gap: Unit, parent: Option<string>,
                                            line: int)
    requires Ordered(defs, cursor, last)
    ensures Count(Tiled(defs, cursor, last, gap, parent), line)
            == if !(cursor <= line <= last) then 0 else if DepthInside(defs, line) == 0 then 1
               else DepthInside(defs, line)
    decreases defs
  {
    hide UnitsOf;
    if defs != [] {
      var before := if cursor < defs[0].start then [gap.(start := cursor, end := defs[0].start - 1)] else [];
      var own := UnitsOf(defs[0], parent, gap.kind == ClassText);
      var rest := Tiled(defs[1..], defs[0].end + 1, last, gap, parent);
      UnitsCountDepth(defs[0], parent, gap.kind == ClassText, line);
      TiledCountsDepth(defs[1..], defs[0].end + 1, last, gap, parent, line);
      CountAppend(before + own, rest, line);
      CountAppend(before, own, line);
      OneAtATime(defs, cursor, last, line);
      if line <= defs[0].end {
        NothingEarlier(defs[1..], defs[0].end + 1, last, line);
      }
    }
  }

  /** Every line of the module is in some unit: in as many as the scopes that show it, and no more. */
  lemma ModuleUnitsCoverEveryLine(defs: seq<Def>, lineCount: nat, line: int)
    requires Ordered(defs, 1, lineCount)
    ensures var units := Tiled(defs, 1, lineCount, ModuleGap(1, lineCount), None);
            && (1 <= line <= lineCount ==>
                  Count(units, line) == if DepthInside(defs, line) == 0 then 1 else DepthInside(defs, line))
            && (!(1 <= line <= lineCount) ==> Count(units, line) == 0)
  {
    TiledCountsDepth(defs, 1, lineCount, ModuleGap(1, lineCount), None, line);
  }

  lemma {:induction false} CountedIsFound(units: seq<Unit>, line: int) returns (i: nat)
    requires Count(units, line) > 0
    ensures i < |units| && units[i].Contains(line)
  {
    if units[0].Contains(line) {
      i := 0;
    } else {
      var j := CountedIsFound(units[1..], line);
      i := j + 1;
    }
  }

  lemma {:induction false} FoundIsCounted(units: seq<Unit>, line: int, i: nat)
    requires i < |units| && units[i].Contains(line)
    ensures Count(units, line) > 0
  {
    if i > 0 {
      FoundIsCounted(units[1..], line, i - 1);
    }
  }

  // ------------------------------------------------------------------------- what units are called

  /** Where a definition stands: the dotted name of its scope, and whether that is a class body. */
  datatype Scope = Scope(name: Option<string>, inClass: bool)

  /** The scope that a definition opens. */
  function Inside(d: Def, outer: Scope): Scope {
    Scope(Some(Qualified(outer.name, d.name)), d.Class?)
  }

  /** `target` is declared in `scope` when `d` is declared in `outer`. */
  predicate Declares(d: Def, outer: Scope, target: Def, scope: Scope)
    decreases d
  {
    (d == target && outer == scope) || DeclaresInside(d.inner, Inside(d, outer), target, scope)
  }

  predicate DeclaresInside(defs: seq<Def>, outer: Scope, target: Def, scope: Scope)
    decreases defs
  {
    defs != [] && (Declares(defs[0], outer, target, scope) || DeclaresInside(defs[1..], outer, target, scope))
  }

  /** Functions of a class body are methods. */
  function KindOf(target: Def, scope: Scope): UnitKind {
    if target.Class? then ClassText else if scope.inClass then MethodText else FunctionText
  }

  /** A unit holds lines of the definition it is named after, in the scope it says. */
  predicate NamedAfter(u: Unit, target: Def, scope: Scope) {
    && u.symbol == Some(target.name) && u.parent == scope.name
    && u.qualified == Some(Qualified(scope.name, target.name)) && u.kind == KindOf(target, scope)
    && target.start <= u.start <= u.end <= target.end
  }

  lemma {:induction false} UnitIsNamed(d: Def, parent: Option<string>, inClass: bool, u: Unit)
    returns (target: Def, scope: Scope)
    requires WellFormed(d) && u in UnitsOf(d, parent, inClass)
    ensures Declares(d, Scope(parent, inClass), target, scope) && NamedAfter(u, target, scope)
    decreases d
  {
    var inside := Some(Qualified(parent, d.name));
    target, scope := d, Scope(parent, inClass);
    if d.Func? {
      if u in UnitsInside(d.inner, inside) {
        target, scope := UnitInsideIsNamed(d.inner, inside, d.start, d.end, u);
      }
    } else if d.inner != [] {
      var own := OwnUnit(d, parent, d.start, d.end, ClassText, []);
      var gap;
      gap, target, scope := UnitOfRowIsNamed(d.inner, d.start, d.end, own, inside, u);
      if gap {
        target, scope := d, Scope(parent, inClass);
      }
    }
  }

  lemma {:induction false} UnitInsideIsNamed(defs: seq<Def>, parent: Option<string>, first: int, last: int, u: Unit)
    returns (target: Def, scope: Scope)
    requires Ordered(defs, first, last) && u in UnitsInside(defs, parent)
    ensures DeclaresInside(defs, Scope(parent, false), target, scope) && NamedAfter(u, target, scope)
    decreases defs
  {
    hide UnitsOf, NamedAfter;
    if u in UnitsOf(defs[0], parent, false) {
      target, scope := UnitIsNamed(defs[0], parent, false, u);
    } else {
      target, scope := UnitInsideIsNamed(defs[1..], parent, defs[0].end + 1, last, u);
    }
  }

  /** A unit of a row is a stretch between definitions, or belongs to one of them. */
  lemma {:induction false} UnitOfRowIsNamed(defs: seq<Def>, cursor: nat, last: nat, gap: Unit, parent: Option<string>,
                                            u: Unit)
    returns (isGap: bool, target: Def, scope: Scope)
    requires Ordered(defs, cursor, last) && u in Tiled(defs, cursor, last, gap, parent)
    ensures isGap ==> u == gap.(start := u.start, end := u.end) && cursor <= u.start <= u.end <= last
    ensures !isGap ==>
              DeclaresInside(defs, Scope(parent, gap.kind == ClassText), target, scope) && NamedAfter(u, target, scope)
    decreases defs
  {
    hide UnitsOf, NamedAfter;
    isGap := false;
    if defs != [] && u in UnitsOf(defs[0], parent, gap.kind == ClassText) {
      target, scope := UnitIsNamed(defs[0], parent, gap.kind == ClassText, u);
    } else if defs != [] && u in Tiled(defs[1..], defs[0].end + 1, last, gap, parent) {
      isGap, target, scope := UnitOfRowIsNamed(defs[1..], defs[0].end + 1, last, gap, parent, u);
    } else {
      isGap, target, scope := true, Func("", 0, 0, [], []), Scope(None, false);
    }
  }

  /** Every function, and every class without definitions of its own, is one whole unit. */
  lemma {:induction false} WholeDefinitionIsUnit(d: Def, parent: Option<string>, inClass: bool, target: Def,
                                                 scope: Scope) returns (u: Unit)
    requires Declares(d, Scope(parent, inClass), target, scope) && (target.Func? || target.inner == [])
    ensures u in UnitsOf(d, parent, inClass) && u.start == target.start && u.end == target.end
    ensures u.symbol == Some(target.name) && u.parent == scope.name && u.kind == KindOf(target, scope)
    ensures u.qualified == Some(Qualified(scope.name, target.name)) && u.breaks == target.breaks
    decreases d
  {
    var inside := Some(Qualified(parent, d.name));
    if d == target && scope == Scope(parent, inClass) {
      u := UnitsOf(d, parent, inClass)[0];
    } else if d.Func? {
      u := WholeDefinitionInside(d.inner, inside, target, scope);
    } else {
      u := WholeDefinitionInRow(d.inner, d.start, d.end, OwnUnit(d, parent, d.start, d.end, ClassText, []), inside,
                                target, scope);
    }
  }

  lemma {:induction false} WholeDefinitionInside(defs: seq<Def>, parent: Option<string>, target: Def,
                                                 scope: Scope) returns (u: Unit)
    requires DeclaresInside(defs, Scope(parent, false), target, scope) && (target.Func? || target.inner == [])
    ensures u in UnitsInside(defs, parent) && u.start == target.start && u.end == target.end
    ensures u.symbol == Some(target.name) && u.parent == scope.name && u.kind == KindOf(target, scope)
    ensures u.qualified == Some(Qualified(scope.name, target.name)) && u.breaks == target.breaks
    decreases defs
  {
    hide UnitsOf;
    if Declares(defs[0], Scope(parent, false), target, scope) {
      u := WholeDefinitionIsUnit(defs[0], parent, false, target, scope);
    } else {
      u := WholeDefinitionInside(defs[1..], parent, target, scope);
    }
  }

  lemma {:induction false} WholeDefinitionInRow(defs: seq<Def>, cursor: nat, last: nat, gap: Unit,
                                                parent: Option<string>, target: Def, scope: Scope)
    returns (u: Unit)
    requires DeclaresInside(defs, Scope(parent, gap.kind == ClassText), target, scope)
    requires target.Func? || target.inner == []
    ensures u in Tiled(defs, cursor, last, gap, parent) && u.start == target.start && u.end == target.end
    ensures u.symbol == Some(target.name) && u.parent == scope.name && u.kind == KindOf(target, scope)
    ensures u.qualified == Some(Qualified(scope.name, target.name)) && u.breaks == target.breaks
    decreases defs
  {
    hide UnitsOf;
    if Declares(defs[0], Scope(parent, gap.kind == ClassText), target, scope) {
      u := WholeDefinitionIsUnit(defs[0], parent, gap.kind == ClassText, target, scope);
    } else {
      u := WholeDefinitionInRow(defs[1..], defs[0].end + 1, last, gap, parent, target, scope);
    }
  }
}
