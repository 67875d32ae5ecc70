/** The commit buffer of a v2 session: where IME results are appended, and how they are taken. */
module CommitBuffer {
  import opened Wrappers
  import opened Lines

  /** What one message pump brought: result strings and plain characters. */
  datatype Pumped = Pumped(result: string, chars: string)

  /** Every append site prefers the result string. */
  function Produced(p: Pumped): string {
    if p.result != "" then p.result else p.chars
  }

  /** The pumps of one `process_vk` call, and the result string the IME still holds at its end. */
  datatype KeyRun = KeyRun(
    posted: Pumped, direct: Option<(Pumped, Pumped)>, keyUp: Option<Pumped>, left: Option<string>)

  /** What the IME does during `select_candidate`. */
  datatype Selection = Selection(
    numeric: Option<KeyRun>, consumed: bool, stillComposing: bool, confirm: KeyRun, confirmed: Pumped,
    notified: Pumped, noChange: bool, completed: Pumped)

  datatype Op =
    | ProcessKey(run: Option<KeyRun>)
    | SelectCandidate(sel: Selection)
    | GetContext(harvest: Pumped)
    | GetCommit(harvest: Pumped)

  /** The pending text, with the history it is accounted against. */
  datatype Ledger = Ledger(pending: Option<string>, appended: string, taken: seq<string>)

  const EMPTY := Ledger(None, "", [])

  function Pending(l: Ledger): string {
    match l.pending case None => "" case Some(t) => t
  }

  function Append(l: Ledger, text: string): Ledger {
    if text == "" then l else Ledger(Some(Pending(l) + text), l.appended + text, l.taken)
  }

  function Harvest(l: Ledger, p: Pumped): Ledger {
    Append(l, Produced(p))
  }

  function HarvestIf(l: Ledger, p: Option<Pumped>): Ledger {
    match p case None => l case Some(q) => Harvest(l, q)
  }

  /** What the pumps of a key run do before the leftover check. */
  function Pumps(l: Ledger, run: KeyRun): Ledger {
    var posted := Harvest(l, run.posted);
    var direct :=
      match run.direct case None => posted case Some((sent, behind)) => Harvest(Harvest(posted, sent), behind);
    HarvestIf(direct, run.keyUp)
  }

  function AfterKey(l: Ledger, run: KeyRun): Ledger {
    var up := Pumps(l, run);
    match run.left case Some(text) => (if up.pending.None? then Append(up, text) else up) case None => up
  }

  function AfterSelect(l: Ledger, sel: Selection): Ledger {
    var keyed := match sel.numeric case None => l case Some(run) => AfterKey(l, run);
    if sel.numeric.Some? && (keyed.pending.Some? || sel.consumed) then
      if sel.stillComposing && keyed.pending.None? then Harvest(AfterKey(keyed, sel.confirm), sel.confirmed) else keyed
    else
      var notified := Harvest(keyed, sel.notified);
      if notified.pending.None? && sel.noChange then Harvest(notified, sel.completed) else notified
  }

  /** `get_commit`: harvest, then take. */
  function Take(l: Ledger, p: Pumped): (Ledger, Option<string>) {
    var h := Harvest(l, p);
    (Ledger(None, h.appended, match h.pending case None => h.taken case Some(t) => h.taken + [t]), h.pending)
  }

  function After(l: Ledger, op: Op): Ledger {
    match op
    case ProcessKey(None) => l
    case ProcessKey(Some(run)) => AfterKey(l, run)
    case SelectCandidate(sel) => AfterSelect(l, sel)
    case GetContext(p) => Harvest(l, p)
    case GetCommit(p) => Take(l, p).0
  }

  /** Nothing is lost, doubled or reordered between appending and taking, and no empty text is ever pending. */
  ghost predicate Balanced(l: Ledger) {
    && Concat(l.taken) + Pending(l) == l.appended
    && l.pending != Some("")
    && forall i :: 0 <= i < |l.taken| ==> l.taken[i] != ""
  }

  lemma AppendKeeps(l: Ledger, text: string)
    requires Balanced(l)
    ensures Balanced(Append(l, text)) && Append(l, text).taken == l.taken
    ensures Append(l, text).appended == l.appended + text
  {
    assert l.appended + "" == l.appended;
    assert Concat(l.taken) + (Pending(l) + text) == Concat(l.taken) + Pending(l) + text;
  }

  function KeyTexts(run: KeyRun): string {
    Produced(run.posted)
    + (match run.direct case None => "" case Some((sent, behind)) => Produced(sent) + Produced(behind))
    + (match run.keyUp case None => "" case Some(p) => Produced(p))
  }

  /** `after` is `l` with `text` appended. */
  ghost predicate Grown(l: Ledger, after: Ledger, text: string) {
    && Balanced(after) && after.taken == l.taken && after.appended == l.appended + text
    && (after.pending.None? <==> l.pending.None? && text == "")
  }

  lemma HarvestGrows(l: Ledger, p: Pumped)
    requires Balanced(l)
    ensures Grown(l, Harvest(l, p), Produced(p))
  {
    AppendKeeps(l, Produced(p));
  }

  lemma GrowTwice(a: Ledger, b: Ledger, c: Ledger, t: string, u: string)
    requires Grown(a, b, t) && Grown(b, c, u)
    ensures Grown(a, c, t + u)
  {
    assert a.appended + (t + u) == a.appended + t + u;
  }

  lemma PumpsGrow(l: Ledger, run: KeyRun)
    requires Balanced(l)
    ensures Grown(l, Pumps(l, run), KeyTexts(run))
  {
    var posted := Harvest(l, run.posted);
    HarvestGrows(l, run.posted);
    var (direct, text) := (posted, Produced(run.posted));
    assert text + "" == text;
    if run.direct.Some? {
      var (sent, behind) := run.direct.value;
      HarvestGrows(posted, sent);
      HarvestGrows(Harvest(posted, sent), behind);
      direct := Harvest(Harvest(posted, sent), behind);
      GrowTwice(posted, Harvest(posted, sent), direct, Produced(sent), Produced(behind));
      GrowTwice(l, posted, direct, text, Produced(sent) + Produced(behind));
      text := text + (Produced(sent) + Produced(behind));
    }
    assert text + "" == text;
    if run.keyUp.Some? {
      HarvestGrows(direct, run.keyUp.value);
      GrowTwice(l, direct, Harvest(direct, run.keyUp.value), text, Produced(run.keyUp.value));
    }
  }

  /** The leftover result string counts only if the pumps brought nothing and nothing had been pending before. */
  function KeyAdds(nonePending: bool, run: KeyRun): string {
    if KeyTexts(run) != "" || !nonePending || run.left.None? then KeyTexts(run) else run.left.value
  }

  lemma KeyGrows(l: Ledger, run: KeyRun)
    requires Balanced(l)
    ensures Grown(l, AfterKey(l, run), KeyAdds(l.pending.None?, run))
  {
    PumpsGrow(l, run);
    var up := Pumps(l, run);
    assert l.appended + "" == l.appended;
    if run.left.Some? {
      AppendKeeps(up, run.left.value);
    }
  }

  /** A selection adds what its keys and pumps produced on the path it took. */
  function SelectAdds(nonePending: bool, sel: Selection): string {
    var keyed := match sel.numeric case None => "" case Some(run) => KeyAdds(nonePending, run);
    var stillNone := nonePending && keyed == "";
    if sel.numeric.Some? && (!stillNone || sel.consumed) then
      keyed + (if sel.stillComposing && stillNone then KeyAdds(true, sel.confirm) + Produced(sel.confirmed) else "")
    else
      keyed + (Produced(sel.notified)
               + (if stillNone && Produced(sel.notified) == "" && sel.noChange then Produced(sel.completed) else ""))
  }

  lemma ConfirmGrows(l: Ledger, sel: Selection)
    requires Balanced(l)
    ensures Grown(l, Harvest(AfterKey(l, sel.confirm), sel.confirmed),
                  KeyAdds(l.pending.None?, sel.confirm) + Produced(sel.confirmed))
  {
    var confirmed := AfterKey(l, sel.confirm);
    KeyGrows(l, sel.confirm);
    HarvestGrows(confirmed, sel.confirmed);
    GrowTwice(l, confirmed, Harvest(confirmed, sel.confirmed),
              KeyAdds(l.pending.None?, sel.confirm), Produced(sel.confirmed));
  }

  lemma NotifyGrows(l: Ledger, sel: Selection)
    requires Balanced(l)
    ensures var notified := Harvest(l, sel.notified);
            var again := notified.pending.None? && sel.noChange;
            Grown(l, if again then Harvest(notified, sel.completed) else notified,
                  Produced(sel.notified) + (if again then Produced(sel.completed) else ""))
  {
    var notified := Harvest(l, sel.notified);
    HarvestGrows(l, sel.notified);
    HarvestGrows(notified, sel.completed);
    GrowTwice(l, notified, Harvest(notified, sel.completed), Produced(sel.notified), Produced(sel.completed));
    assert Produced(sel.notified) + "" == Produced(sel.notified);
  }

  lemma SelectGrows(l: Ledger, sel: Selection)
    requires Balanced(l)
    ensures Grown(l, AfterSelect(l, sel), SelectAdds(l.pending.None?, sel))
  {
    var keyed, text := l, "";
    assert l.appended + "" == l.appended;
    if sel.numeric.Some? {
      KeyGrows(l, sel.numeric.value);
      keyed, text := AfterKey(l, sel.numeric.value), KeyAdds(l.pending.None?, sel.numeric.value);
    }
    assert Grown(l, keyed, text) && text + "" == text;
    if sel.numeric.Some? && (keyed.pending.Some? || sel.consumed) {
      if sel.stillComposing && keyed.pending.None? {
        ConfirmGrows(keyed, sel);
        GrowTwice(l, keyed, AfterSelect(l, sel), text, KeyAdds(true, sel.confirm) + Produced(sel.confirmed));
      }
    } else {
      NotifyGrows(keyed, sel);
      var again := Harvest(keyed, sel.notified).pending.None? && sel.noChange;
      GrowTwice(l, keyed, AfterSelect(l, sel), text,
                Produced(sel.notified) + (if again then Produced(sel.completed) else ""));
    }
  }

  /** Taking gives out everything appended since the last take, and never an empty text. */
  lemma TakeKeeps(l: Ledger, p: Pumped)
    requires Balanced(l)
    ensures var (after, text) := Take(l, p);
            && Balanced(after) && after.pending.None? && text != Some("")
            && after.taken == (match text case None => l.taken case Some(t) => l.taken + [t])
            && Concat(after.taken) == after.appended == l.appended + Produced(p)
            && (text.None? <==> l.pending.None? && Produced(p) == "")
  {
    AppendKeeps(l, Produced(p));
    var h := Harvest(l, p);
    if h.pending.Some? {
      ConcatAppend(h.taken, h.pending.value);
    }
    assert Concat(h.taken) + "" == Concat(h.taken);
  }

  function OpAdds(nonePending: bool, op: Op): string {
    match op
    case ProcessKey(None) => ""
    case ProcessKey(Some(run)) => KeyAdds(nonePending, run)
    case SelectCandidate(sel) => SelectAdds(nonePending, sel)
    case GetContext(p) => Produced(p)
    case GetCommit(p) => Produced(p)
  }

  /** Every operation appends exactly what it produced, and only `get_commit` takes. */
  lemma OpKeeps(l: Ledger, op: Op)
    requires Balanced(l)
    ensures Balanced(After(l, op)) && After(l, op).appended == l.appended + OpAdds(l.pending.None?, op)
    ensures !op.GetCommit? ==> Grown(l, After(l, op), OpAdds(l.pending.None?, op))
  {
    assert l.appended + "" == l.appended;
    match op
    case ProcessKey(None) =>
    case ProcessKey(Some(run)) => KeyGrows(l, run);
    case SelectCandidate(sel) => SelectGrows(l, sel);
    case GetContext(p) => HarvestGrows(l, p);
    case GetCommit(p) => TakeKeeps(l, p);
  }

  // ----- which text is committed -----

  /** `t` is what counts of a pump: its result, whatever its characters, and these only without a result. */
  ghost predicate Brings(p: Pumped, t: string) {
    (p.result != "" ==> t == p.result) && (p.result == "" ==> t == p.chars)
  }

  ghost predicate BringsIf(p: Option<Pumped>, t: string) {
    match p case None => t == "" case Some(q) => Brings(q, t)
  }

  /** A harvest adds the result text, or else the characters, to what is pending. */
  lemma WhatAHarvestAppends(l: Ledger, p: Pumped)
    ensures p.result != "" && l.pending.None? ==> Harvest(l, p).pending == Some(p.result)
    ensures p.result != "" && l.pending.Some? ==> Harvest(l, p).pending == Some(l.pending.value + p.result)
    ensures p.result != "" ==> Harvest(l, p).appended == l.appended + p.result
    ensures p.result == "" && p.chars != "" && l.pending.None? ==> Harvest(l, p).pending == Some(p.chars)
    ensures p.result == "" && p.chars != "" && l.pending.Some? ==>
              Harvest(l, p).pending == Some(l.pending.value + p.chars)
    ensures p.result == "" && p.chars != "" ==> Harvest(l, p).appended == l.appended + p.chars
    ensures p.result == "" && p.chars == "" ==> Harvest(l, p) == l
    ensures Harvest(l, p).taken == l.taken
  {
    assert "" + p.result == p.result && "" + p.chars == p.chars;
  }

  /** A key run appends what its pumps bring, and the leftover result only if that and the buffer are empty. */
  lemma WhatAKeyAppends(l: Ledger, run: KeyRun, posted: string, sent: string, behind: string, up: string)
    requires Balanced(l) && Brings(run.posted, posted) && BringsIf(run.keyUp, up)
    requires match run.direct
             case None => sent == behind == ""
             case Some((a, b)) => Brings(a, sent) && Brings(b, behind)
    ensures var (all, after) := (posted + (sent + behind) + up, AfterKey(l, run));
            && (all != "" || l.pending.Some? || run.left.None? ==> after.appended == l.appended + all)
            && (all == "" && l.pending.None? && run.left.Some? ==> after.appended == l.appended + run.left.value)
            && after.taken == l.taken
  {
    KeyGrows(l, run);
    assert KeyTexts(run) == posted + (sent + behind) + up;
  }

  /**
   * A selection: if the number key left text pending, that is all. If the IME took the key without text, Return and
   * a harvest follow as long as there is a composition. Otherwise the IME is notified, and asked to complete if
   * nothing came of it and nothing changed.
   */
  lemma WhatASelectionDoes(l: Ledger, sel: Selection)
    ensures var keyed := match sel.numeric case None => l case Some(run) => AfterKey(l, run);
            var notified := Harvest(keyed, sel.notified);
            var after := AfterSelect(l, sel);
            var notTaken := sel.numeric.None? || (keyed.pending.None? && !sel.consumed);
            && (sel.numeric.Some? && keyed.pending.Some? ==> after == keyed)
            && (sel.numeric.Some? && keyed.pending.None? && sel.consumed && sel.stillComposing ==>
                  after == Harvest(AfterKey(keyed, sel.confirm), sel.confirmed))
            && (sel.numeric.Some? && keyed.pending.None? && sel.consumed && !sel.stillComposing ==> after == keyed)
            && (notTaken && (notified.pending.Some? || !sel.noChange) ==> after == notified)
            && (notTaken && notified.pending.None? && sel.noChange ==> after == Harvest(notified, sel.completed))
  {
  }

  class ImmSession {
    var pendingCommit: Option<string>
    ghost var appended: string
    ghost var taken: seq<string>

    ghost function Abs(): Ledger
      reads this
    {
      Ledger(pendingCommit, appended, taken)
    }

    constructor ()
      ensures Abs() == EMPTY
    {
      pendingCommit, appended, taken := None, "", [];
    }

    method AppendCommit(text: string)
      modifies this
      ensures Abs() == Append(old(Abs()), text)
    {
      if text == "" {
        return;
      }
      var s := if pendingCommit.Some? then pendingCommit.value else "";
      s := s + text;
      pendingCommit := Some(s);
      appended := appended + text;
    }

    method HarvestMessages(p: Pumped)
      modifies this
      ensures Abs() == Harvest(old(Abs()), p)
    {
      if p.result != "" {
        AppendCommit(p.result);
      } else if p.chars != "" {
        AppendCommit(p.chars);
      }
    }

    method ProcessVk(run: KeyRun)
      modifies this
      ensures Abs() == AfterKey(old(Abs()), run)
    {
      HarvestMessages(run.posted);
      if run.direct.Some? {
        HarvestMessages(run.direct.value.0);
        HarvestMessages(run.direct.value.1);
      }
      if run.keyUp.Some? {
        HarvestMessages(run.keyUp.value);
      }
      if pendingCommit.None? && run.left.Some? {
        AppendCommit(run.left.value);
      }
    }

    method Select(sel: Selection)
      modifies this
      ensures Abs() == AfterSelect(old(Abs()), sel)
    {
      if sel.numeric.Some? {
        ProcessVk(sel.numeric.value);
        var hasPending := pendingCommit.Some?;
        if hasPending || sel.consumed {
          if sel.stillComposing && !hasPending {
            ProcessVk(sel.confirm);
            HarvestMessages(sel.confirmed);
          }
          return;
        }
      }
      HarvestMessages(sel.notified);
      if pendingCommit.None? && sel.noChange {
        HarvestMessages(sel.completed);
      }
    }

    method TakeCommit(p: Pumped) returns (text: Option<string>)
      modifies this
      ensures (Abs(), text) == Take(old(Abs()), p)
    {
      HarvestMessages(p);
      text := pendingCommit;
      pendingCommit := None;
      if text.Some? {
        taken := taken + [text.value];
      }
    }
  }
}
