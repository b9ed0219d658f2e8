/**
 * The prompt composer: the one text part of each request, built from the
 * reference names, the precision flag, the number of references and the
 * user's task text.
 */
module Prompt {
  import opened JsText

  const StrictHead := "STRICT CONSISTENCY: "
  const StrictTail := ". Maintain absolute consistency with their specific facial features, hair, clothing, and colors as shown in their respective reference images. Draw them in the situation described below."
  const CreativeHead := "CREATIVE INSPIRATION: "
  const CreativeTail := ". Use these as a guide but feel free to stylize."
  const TaskLabel := "Task: "
  const IdentitySeparator := ". "

  /** The label a reference is known by: its name, or `Character i` (1-based) when unnamed. */
  function Label(name: string, i: nat): (r: string)
    ensures name != "" ==> r == name
    ensures name == "" ==> r == "Character " + NatToString(i + 1)
    ensures r != ""
  {
    if name != "" then name else "Character " + NatToString(i + 1)
  }

  /** The identity line for the reference at 0-based index `i`. */
  function IdentityLine(name: string, i: nat): (r: string)
    ensures "Image " + NatToString(i + 1) <= r
  {
    "Image " + NatToString(i + 1) + " is the character named '" + Label(name, i) + "'"
  }

  /** `referenceNames.map(...)`: one identity line per reference, in gallery order. */
  function IdentityLines(names: seq<string>): (r: seq<string>)
    ensures |r| == |names|
    ensures forall i :: 0 <= i < |names| ==> r[i] == IdentityLine(names[i], i)
  {
    seq(|names|, i requires 0 <= i < |names| => IdentityLine(names[i], i))
  }

  /** The identity lines joined with ". ". */
  function CharacterIdentities(names: seq<string>): (r: string)
    ensures r == "" <==> names == []
    ensures names != [] ==> IdentityLine(names[0], 0) <= r
  {
    Join(IdentityLines(names), IdentitySeparator)
  }

  /** One more reference adds `. ` and its own line; the earlier lines are untouched. */
  lemma IdentitiesGrow(names: seq<string>, name: string)
    requires names != []
    ensures CharacterIdentities(names + [name]) ==
            CharacterIdentities(names) + IdentitySeparator + IdentityLine(name, |names|)
  {
    assert IdentityLines(names + [name]) == IdentityLines(names) + [IdentityLine(name, |names|)];
    JoinSnoc(IdentityLines(names), IdentityLine(name, |names|), IdentitySeparator);
  }

  /** An unnamed reference at 1-based position `i + 1` is called `Character i+1`
      and is said to be `Image i+1`. */
  lemma UnnamedFallback(names: seq<string>, i: nat)
    requires i < |names| && names[i] == ""
    ensures IdentityLines(names)[i] ==
      "Image " + NatToString(i + 1) + " is the character named 'Character " + NatToString(i + 1) + "'"
  {
  }

  /** The words the leading clause opens with, chosen by the precision flag. */
  function Opening(isPrecise: bool): (r: string) {
    if isPrecise then StrictHead else CreativeHead
  }

  /** The leading clause: the mode's opening words, then the identity text, then
      the mode's closing sentence. */
  function Instruction(isPrecise: bool, identities: string): (r: string)
    ensures Opening(isPrecise) + identities <= r
  {
    if isPrecise then StrictHead + identities + StrictTail
    else CreativeHead + identities + CreativeTail
  }

  /** The index legend: present only when there is at least one reference. */
  function Legend(numRefs: nat): (r: string)
    ensures r == "" <==> numRefs == 0
  {
    if numRefs > 0 then
      "References are in Images 1 through " + NatToString(numRefs)
      + ". Current sketch/layout is Image " + NatToString(numRefs + 1) + ". "
    else ""
  }

  /** `finalPrompt`: it opens with the mode's words and every reference's
      identity line, and ends with the user's task. */
  function FinalPrompt(names: seq<string>, isPrecise: bool, task: string, numRefs: nat): (r: string)
    ensures Opening(isPrecise) + CharacterIdentities(names) <= r
    ensures |r| >= |TaskLabel + task| && r[|r| - |TaskLabel + task|..] == TaskLabel + task
  {
    var instruction := Instruction(isPrecise, CharacterIdentities(names));
    var front := instruction + ("\n\n" + Legend(numRefs));
    PrefixExtends(Opening(isPrecise) + CharacterIdentities(names), instruction, "\n\n" + Legend(numRefs));
    PrefixExtends(Opening(isPrecise) + CharacterIdentities(names), front, TaskLabel + task);
    ConcatParts(front, TaskLabel + task);
    front + (TaskLabel + task)
  }

  /** Between the leading clause and the `Task:` line sits the legend, which is empty
      exactly when there are no references. */
  lemma LegendIffReferences(names: seq<string>, isPrecise: bool, task: string, numRefs: nat)
    ensures var lead := Instruction(isPrecise, CharacterIdentities(names)) + "\n\n";
            var r := FinalPrompt(names, isPrecise, task, numRefs);
            |r| == |lead| + |Legend(numRefs)| + |TaskLabel + task| &&
            r[..|lead|] == lead &&
            r[|lead|..|lead| + |Legend(numRefs)|] == Legend(numRefs) &&
            (Legend(numRefs) == "" <==> numRefs == 0)
  {
    var instruction := Instruction(isPrecise, CharacterIdentities(names));
    var legend := Legend(numRefs);
    var tail := TaskLabel + task;
    assert FinalPrompt(names, isPrecise, task, numRefs) == instruction + ("\n\n" + legend) + tail;
    Regroup(instruction, "\n\n", legend, tail);
    ConcatThree(instruction + "\n\n", legend, tail);
  }

  /** Toggling the precision flag changes only the leading clause: what follows
      it (legend and task) is the same text. */
  lemma {:induction false} PrecisionOnlyChangesLeadingClause(names: seq<string>, task: string, numRefs: nat)
    ensures var ids := CharacterIdentities(names);
            var strict := FinalPrompt(names, true, task, numRefs);
            var creative := FinalPrompt(names, false, task, numRefs);
            |strict| >= |Instruction(true, ids)| && |creative| >= |Instruction(false, ids)| &&
            strict[|Instruction(true, ids)|..] == creative[|Instruction(false, ids)|..]
  {
    AfterInstruction(names, true, task, numRefs);
    AfterInstruction(names, false, task, numRefs);
  }

  /** After the leading clause come the blank line, the legend and the `Task:` line. */
  lemma {:induction false} AfterInstruction(names: seq<string>, isPrecise: bool, task: string, numRefs: nat)
    ensures var instruction := Instruction(isPrecise, CharacterIdentities(names));
            var r := FinalPrompt(names, isPrecise, task, numRefs);
            |r| >= |instruction| && r[|instruction|..] == ("\n\n" + Legend(numRefs)) + (TaskLabel + task)
  {
    var instruction := Instruction(isPrecise, CharacterIdentities(names));
    var middle := "\n\n" + Legend(numRefs);
    var tail := TaskLabel + task;
    assert FinalPrompt(names, isPrecise, task, numRefs) == instruction + (middle + tail);
    ConcatParts(instruction, middle + tail);
  }

  /** With no references the identity text is empty, so the strict prompt is the
      opening words directly followed by the closing sentence (reading
      `STRICT CONSISTENCY: . Maintain ...`), then the `Task:` line, with no legend. */
  lemma EmptyGalleryPrompt(task: string)
    ensures FinalPrompt([], true, task, 0) == StrictHead + StrictTail + "\n\n" + TaskLabel + task
  {
    assert CharacterIdentities([]) == "";
    assert Legend(0) == "";
    assert Instruction(true, "") == StrictHead + StrictTail;
  }
}
