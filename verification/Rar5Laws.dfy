// The engine the repository decodes with, and that it keeps the laws the block machinery asks for.

module Rar5Laws {
  import opened Basics
  import opened DecodeTypes
  import opened Serial
  import Apply
  import BH = BlockHeader
  import Bounds
  import BranchFilters
  import CodeTables
  import Filters
  import Symbols

  // decoder50.Read's switch on the filter's type.
  function RunFilter(f: FilterBlock, buf: seq<byte>, pos: nat): (r: seq<byte>)
    ensures |r| == |buf|
  {
    match f.ftype
    case 0 => Filters.Delta(f.param, buf)
    case 1 => BranchFilters.E8(0xe8, buf, pos, false)
    case 2 => BranchFilters.E8(0xe9, buf, pos, false)
    case 3 => BranchFilters.Arm(buf, pos, false)
    case _ => buf
  }

  function Rar5Engine(): Engine {
    Engine(BH.ReadHead, c => CodeTables.ReadTable(c, TABLE_SIZE), CodeTables.Load, Symbols.ParseSymbol, Apply.ApplyOp, RunFilter, false)
  }

  lemma {:induction false} Rar5Is(e: Engine)
    requires e.(sealed := false) == Rar5Engine()
    ensures forall src :: e.ReadHead(src) == BH.ReadHead(src)
    ensures forall c :: e.ReadTables(c) == CodeTables.ReadTable(c, TABLE_SIZE)
    ensures forall ts, c :: e.Parse(ts, c) == Symbols.ParseSymbol(ts, c)
    ensures forall d, op :: e.Apply(d, op) == Apply.ApplyOp(d, op)
    ensures forall f, buf, pos :: e.RunFilter(f, buf, pos) == RunFilter(f, buf, pos)
  {
  }

  lemma {:induction false} HeadsConsumed(src: seq<byte>)
    ensures var r := BH.ReadHead(src);
      if r.Head? then |r.rest| < |src| else Soft(Some(r.err)) ==> r == HeadErr(EOF, [])
  {
  }

  lemma {:induction false} Rar5Lawful(e: Engine)
    requires e == Rar5Engine()
    ensures Lawful(e) && Bounds.AppliesFit(e)
  {
    Rar5Is(e);
    forall src ensures var r := BH.ReadHead(src);
      if r.Head? then |r.rest| < |src| else Soft(Some(r.err)) ==> r == HeadErr(EOF, [])
    {
      HeadsConsumed(src);
    }
    forall ts, c ensures var p := Symbols.ParseSymbol(ts, c);
      && (p.Symbol? ==> InRange(p.op) && p.cur.Left() < c.Left())
      && (p.Stop? ==> p.err != EOF)
    {
      Symbols.ParsedInRange(ts, c);
    }
    forall d, op ensures Grown(d, Apply.ApplyOp(d, op).d) {
      Apply.AppliedGrown(d, op);
    }
    forall d, op ensures Apply.ApplyOp(d, op).err.Some? ==> !Soft(Apply.ApplyOp(d, op).err) {
      Apply.AppliedGrown(d, op);
    }
    forall d, op ensures var a := Apply.ApplyOp(d, op);
      a.d.fl == d.fl + (if a.err.None? then Announced(d.decoded, op) else [])
    {
      Apply.AppliedQueues(d, op);
    }
    forall d, op | Apply.DecOk(d) && InRange(op) && d.win.unread < FillTarget(d.win)
      ensures Apply.DecOk(Apply.ApplyOp(d, op).d) && |Apply.ApplyOp(d, op).d.win.hist| <= |d.win.hist| + Apply.MAX_LENGTH
    {
      Apply.AppliedFits(d, op);
    }
  }
}
