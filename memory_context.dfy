/**
 * The text block `generateMemoryContext` builds for inclusion in a prompt,
 * from the critical memories and the recent memories it has fetched.
 */
module MemoryContext {
  import opened Seqs
  import opened Text
  import opened MemoryTypes

  const Header: string := "\n--- Deep Tree Echo Memory Context ---\n"
  const CriticalHeading: string := "\nCritical Memories:\n"
  const RecentHeading: string := "\nRecent Experiences:\n"
  const Footer: string := "\n--- End Memory Context ---\n"

  /** How many of the recent memories are shown (`slice(0, 5)`). */
  const RecentShown: nat := 5

  /** One bullet: `- [type] content`. */
  function Line(m: Memory): string {
    "- [" + TypeName(m.kind) + "] " + m.content + "\n"
  }

  /** The bullets of `ms`, in order. */
  function Lines(ms: seq<Memory>): string {
    if ms == [] then "" else Lines(ms[..|ms| - 1]) + Line(ms[|ms| - 1])
  }

  /** A heading followed by its bullets, or nothing for an empty list. */
  function Section(heading: string, ms: seq<Memory>): string {
    if ms == [] then "" else heading + Lines(ms)
  }

  /** The block, or "" when there is nothing to report. */
  function ContextBlock(critical: seq<Memory>, recent: seq<Memory>): string {
    if critical == [] && recent == [] then ""
    else Header + Section(CriticalHeading, critical) + Section(RecentHeading, Take(recent, RecentShown)) + Footer
  }

  /** The formatting half of `generateMemoryContext`: appends to `context` section by section. */
  method RenderMemoryContext(critical: seq<Memory>, recent: seq<Memory>) returns (context: string)
    ensures context == ContextBlock(critical, recent)
  {
    if |critical| == 0 && |recent| == 0 {
      return "";
    }
    context := AppendSection(Header, CriticalHeading, critical);
    context := AppendSection(context, RecentHeading, Take(recent, RecentShown));
    context := context + Footer;
  }

  /** One `if (list.length > 0)` block: the heading and a bullet per memory, or nothing. */
  method AppendSection(context: string, heading: string, ms: seq<Memory>) returns (r: string)
    ensures r == context + Section(heading, ms)
  {
    if |ms| > 0 {
      r := AppendLines(context + heading, ms);
      AppendAssoc(context, heading, Lines(ms));
    } else {
      r := context;
      assert context + [] == context;
    }
  }

  /** One `forEach` of `generateMemoryContext`: a bullet appended per memory. */
  method AppendLines(context: string, ms: seq<Memory>) returns (r: string)
    ensures r == context + Lines(ms)
  {
    r := context;
    var i := 0;
    while i < |ms|
      invariant 0 <= i <= |ms|
      invariant r == context + Lines(ms[..i])
    {
      assert ms[..i + 1][..i] == ms[..i];
      var line := Line(ms[i]);
      assert Lines(ms[..i + 1]) == Lines(ms[..i]) + line;
      AppendAssoc(context, Lines(ms[..i]), line);
      r := r + line;
      i := i + 1;
    }
    assert ms[..|ms|] == ms;
  }

  lemma AppendAssoc(a: string, b: string, c: string)
    ensures (a + b) + c == a + (b + c)
  {
  }

  /** The block is empty exactly when both lists are. */
  lemma ContextBlockEmpty(critical: seq<Memory>, recent: seq<Memory>)
    ensures ContextBlock(critical, recent) == "" <==> critical == [] && recent == []
  {
  }

  /** A non-empty block opens with the header and closes with the footer. */
  lemma ContextBlockFrame(critical: seq<Memory>, recent: seq<Memory>)
    requires critical != [] || recent != []
    ensures Header <= ContextBlock(critical, recent)
    ensures var b := ContextBlock(critical, recent); |Footer| <= |b| && b[|b| - |Footer|..] == Footer
  {
  }

  /** The critical section comes right after the header exactly when there are critical memories. */
  lemma CriticalSectionFirst(critical: seq<Memory>, recent: seq<Memory>)
    ensures Header + CriticalHeading <= ContextBlock(critical, recent) <==> critical != []
  {
    var b := ContextBlock(critical, recent);
    var k := |Header| + 1;
    if critical == [] && b != [] {
      assert b[k] == RecentHeading[1] == 'R';
      assert (Header + CriticalHeading)[k] == 'C';
    }
  }

  /** Each listed memory's bullet lies inside the bullets of the list. */
  lemma {:induction false} LinesInclude(ms: seq<Memory>, i: nat)
    requires i < |ms|
    ensures Includes(Lines(ms), Line(ms[i]))
    decreases |ms|
  {
    var last := |ms| - 1;
    var front, line := Lines(ms[..last]), Line(ms[last]);
    assert Lines(ms) == front + line;
    if i == last {
      IncludesItself(line);
      IncludesAfter(front, line, line);
    } else {
      assert ms[..last][i] == ms[i];
      LinesInclude(ms[..last], i);
      IncludesBefore(front, line, Line(ms[i]));
    }
  }

  /** Every critical memory is rendered as a bullet. */
  lemma CriticalShown(critical: seq<Memory>, recent: seq<Memory>, i: nat)
    requires i < |critical|
    ensures Includes(ContextBlock(critical, recent), Line(critical[i]))
  {
    var cs := Section(CriticalHeading, critical);
    var rest := Section(RecentHeading, Take(recent, RecentShown)) + Footer;
    LinesInclude(critical, i);
    IncludesExtend(CriticalHeading, Lines(critical), [], Line(critical[i]));
    assert CriticalHeading + Lines(critical) + [] == cs;
    IncludesExtend(Header, cs, rest, Line(critical[i]));
    assert Header + cs + rest == ContextBlock(critical, recent);
  }

  /** Each of the first five recent memories is rendered as a bullet. */
  lemma RecentShownInBlock(critical: seq<Memory>, recent: seq<Memory>, i: nat)
    requires i < |recent| && i < RecentShown
    ensures Includes(ContextBlock(critical, recent), Line(recent[i]))
  {
    var shown := Take(recent, RecentShown);
    var front := Header + Section(CriticalHeading, critical);
    var rs := Section(RecentHeading, shown);
    assert shown[i] == recent[i];
    LinesInclude(shown, i);
    IncludesExtend(RecentHeading, Lines(shown), [], Line(recent[i]));
    assert RecentHeading + Lines(shown) + [] == rs;
    IncludesExtend(front, rs, Footer, Line(recent[i]));
    assert front + rs + Footer == ContextBlock(critical, recent);
  }

  /** The bullets start with the first memory's bullet. */
  lemma {:induction false} LinesFirst(ms: seq<Memory>)
    requires ms != []
    ensures Line(ms[0]) <= Lines(ms)
    decreases |ms|
  {
    var last := |ms| - 1;
    if last > 0 {
      LinesFirst(ms[..last]);
      assert ms[..last][0] == ms[0];
    }
  }

  /** Without recent memories the block has no recent section. */
  lemma RecentSectionAbsent(critical: seq<Memory>)
    ensures ContextBlock(critical, []) == if critical == [] then "" else Header + CriticalHeading + Lines(critical) + Footer
  {
    var none: seq<Memory> := [];
    assert Take(none, RecentShown) == [];
    if critical != [] {
      Regroup(Header, CriticalHeading, Lines(critical), Footer);
    }
  }

  lemma Regroup(h: string, heading: string, lines: string, f: string)
    ensures h + (heading + lines) + [] + f == h + heading + lines + f
  {
    assert h + (heading + lines) + [] == h + (heading + lines);
    AppendAssoc(h, heading, lines);
  }

  /** What opens the middle piece of a text occurs in the text. */
  lemma OpeningIncluded(front: string, middle: string, back: string, opening: string)
    requires opening <= middle
    ensures Includes(front + middle + back, opening)
  {
    var rest := middle[|opening|..];
    assert middle == opening + rest;
    IncludesItself(opening);
    IncludesExtend(front, opening, rest + back, opening);
    assert front + opening + (rest + back) == front + middle + back;
  }

  /** With recent memories, the section heading is followed directly by the first one's bullet. */
  lemma RecentSectionOpens(critical: seq<Memory>, recent: seq<Memory>)
    requires recent != []
    ensures Includes(ContextBlock(critical, recent), RecentHeading + Line(recent[0]))
  {
    var shown := Take(recent, RecentShown);
    assert shown != [] && shown[0] == recent[0];
    LinesFirst(shown);
    var section := Section(RecentHeading, shown);
    assert section == RecentHeading + Lines(shown);
    assert RecentHeading + Line(recent[0]) <= section;
    OpeningIncluded(Header + Section(CriticalHeading, critical), section, Footer, RecentHeading + Line(recent[0]));
  }
}
