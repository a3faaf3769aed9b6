/** Word-level differences inside one changed line. */
module WordDiff {
  import opened Wrappers
  import opened Sequence
  import opened Scripts

  datatype SegmentKind = Unchanged | Deleted | Inserted

  datatype Segment = Segment(kind: SegmentKind, text: string)

  datatype Group = Same(text: string) | Change(removed: string, added: string)

  /** Which characters make words and which are white space. */
  datatype CharClasses = CharClasses(word: set<char>, space: set<char>)

  /** Where the run of characters of a class that begins at `i` ends. */
  function RunEnd(text: string, i: nat, allowed: set<char>): (e: nat)
    requires i <= |text|
    ensures i <= e <= |text| && (forall k :: i <= k < e ==> text[k] in allowed) && (e < |text| ==> text[e] !in allowed)
    decreases |text| - i
  {
    if i < |text| && text[i] in allowed then RunEnd(text, i + 1, allowed) else i
  }

  function TokenEnd(classes: CharClasses, text: string, i: nat): (e: nat)
    requires i < |text|
    ensures i < e <= |text|
  {
    if text[i] in classes.word then RunEnd(text, i, classes.word)
    else if text[i] in classes.space then RunEnd(text, i, classes.space)
    else i + 1
  }

  /** The tokens of a text from `i` on: words, runs of white space, and every other character by itself. */
  function Tokens(classes: CharClasses, text: string, i: nat): (tokens: seq<string>)
    requires i <= |text|
    ensures forall t :: t in tokens ==> t != ""
    decreases |text| - i
  {
    if i == |text| then []
    else var e := TokenEnd(classes, text, i); [text[i..e]] + Tokens(classes, text, e)
  }

  ghost predicate AllIn(s: string, allowed: set<char>) {
    forall i :: 0 <= i < |s| ==> s[i] in allowed
  }

  ghost predicate IsWord(classes: CharClasses, t: string) {
    t != "" && AllIn(t, classes.word)
  }

  ghost predicate IsSpace(classes: CharClasses, t: string) {
    t != "" && t[0] !in classes.word && AllIn(t, classes.space)
  }

  /** A word, white space, or one other character. */
  ghost predicate IsToken(classes: CharClasses, t: string) {
    IsWord(classes, t) || IsSpace(classes, t) || (|t| == 1 && t[0] !in classes.word && t[0] !in classes.space)
  }

  /** What a text is made of: words and white space, each as long as it gets, and every other character by itself. */
  ghost predicate AreTokens(classes: CharClasses, text: string, tokens: seq<string>) {
    && Concat(tokens) == text && (forall i :: 0 <= i < |tokens| ==> IsToken(classes, tokens[i]))
    && Maximal(classes, tokens)
  }

  /** No word goes on in the next token, and no white space does. */
  ghost predicate Maximal(classes: CharClasses, tokens: seq<string>) {
    forall i, j :: 0 <= i && j == i + 1 && j < |tokens| && tokens[j] != "" ==>
      && (IsWord(classes, tokens[i]) ==> tokens[j][0] !in classes.word)
      && (IsSpace(classes, tokens[i]) ==> tokens[j][0] !in classes.space)
  }

  lemma TokenIs(classes: CharClasses, text: string, i: nat)
    requires i < |text|
    ensures var e := TokenEnd(classes, text, i);
            var t := text[i..e];
            && IsToken(classes, t)
            && (e < |text| && IsWord(classes, t) ==> text[e] !in classes.word)
            && (e < |text| && IsSpace(classes, t) ==> text[e] !in classes.space)
  {
    assert text[i..TokenEnd(classes, text, i)][0] == text[i];
  }

  lemma {:induction false} TokensAreTokens(classes: CharClasses, text: string, i: nat)
    requires i <= |text|
    ensures var tokens := Tokens(classes, text, i);
            && (forall k :: 0 <= k < |tokens| ==> IsToken(classes, tokens[k])) && Maximal(classes, tokens)
            && (i < |text| ==> tokens != [] && tokens[0] != "" && tokens[0][0] == text[i])
    decreases |text| - i
  {
    if i < |text| {
      hide IsToken, IsWord, IsSpace, TokenEnd;
      var e := TokenEnd(classes, text, i);
      TokenIs(classes, text, i);
      TokensAreTokens(classes, text, e);
      var rest, all := Tokens(classes, text, e), Tokens(classes, text, i);
      assert all == [text[i..e]] + rest;
      assert forall k :: 0 < k < |all| ==> all[k] == rest[k - 1];
      assert e == |text| ==> rest == [];
    }
  }

  function Concat(parts: seq<string>): string {
    if parts == [] then "" else Concat(parts[..|parts| - 1]) + parts[|parts| - 1]
  }

  lemma {:induction false} ConcatJoin(xs: seq<string>, ys: seq<string>)
    ensures Concat(xs + ys) == Concat(xs) + Concat(ys)
    decreases |ys|
  {
    if ys == [] {
      assert xs + ys == xs;
    } else {
      var front, last := ys[..|ys| - 1], ys[|ys| - 1];
      ConcatJoin(xs, front);
      var all := xs + ys;
      assert all[..|all| - 1] == xs + front && all[|all| - 1] == last;
      assert Concat(all) == Concat(xs + front) + last;
      assert Concat(ys) == Concat(front) + last;
      Assoc(Concat(xs), Concat(front), last);
    }
  }

  /** Tokenising drops nothing. */
  lemma {:induction false} TokensCover(classes: CharClasses, text: string, i: nat)
    requires i <= |text|
    ensures Concat(Tokens(classes, text, i)) == text[i..]
    decreases |text| - i
  {
    if i < |text| {
      var e := TokenEnd(classes, text, i);
      TokensCover(classes, text, e);
      ConcatJoin([text[i..e]], Tokens(classes, text, e));
      assert Concat([text[i..e]]) == text[i..e] by {
        assert [text[i..e]][..0] == [];
      }
      assert text[i..] == text[i..e] + text[e..];
    }
  }

  lemma ConcatNext(parts: seq<string>, k: nat)
    requires k < |parts|
    ensures Concat(parts[..k + 1]) == Concat(parts[..k]) + parts[k]
  {
    assert parts[..k + 1][..k] == parts[..k];
  }

  function OldOf(groups: seq<Group>): string {
    if groups == [] then ""
    else OldOf(groups[..|groups| - 1]) + Before(groups[|groups| - 1])
  }

  function NewOf(groups: seq<Group>): string {
    if groups == [] then ""
    else NewOf(groups[..|groups| - 1]) + After(groups[|groups| - 1])
  }

  function Before(g: Group): string {
    if g.Same? then g.text else g.removed
  }

  function After(g: Group): string {
    if g.Same? then g.text else g.added
  }

  lemma OneMore(groups: seq<Group>, g: Group)
    ensures OldOf(groups + [g]) == OldOf(groups) + Before(g) && NewOf(groups + [g]) == NewOf(groups) + After(g)
  {
    assert (groups + [g])[..|groups|] == groups;
  }

  lemma GroupNext(groups: seq<Group>, k: nat)
    requires k < |groups|
    ensures OldOf(groups[..k + 1]) == OldOf(groups[..k]) + Before(groups[k])
    ensures NewOf(groups[..k + 1]) == NewOf(groups[..k]) + After(groups[k])
  {
    assert groups[..k + 1] == groups[..k] + [groups[k]];
    OneMore(groups[..k], groups[k]);
  }

  // What is left unmarked.

  /** A text without its white space. */
  function Ink(classes: CharClasses, s: string): string {
    if s == "" then ""
    else Ink(classes, s[..|s| - 1]) + if s[|s| - 1] in classes.space then "" else [s[|s| - 1]]
  }

  lemma {:induction false} InkJoin(classes: CharClasses, s: string, t: string)
    ensures Ink(classes, s + t) == Ink(classes, s) + Ink(classes, t)
    decreases |t|
  {
    if t == "" {
      assert s + t == s;
    } else {
      var front, last := t[..|t| - 1], if t[|t| - 1] in classes.space then "" else [t[|t| - 1]];
      InkJoin(classes, s, front);
      InkOne(classes, t, front, last);
      InkOne(classes, s + t, s + front, last);
      Assoc(Ink(classes, s), Ink(classes, front), last);
    }
  }

  lemma InkOne(classes: CharClasses, s: string, front: string, last: string)
    requires s != "" && front == s[..|s| - 1] && last == if s[|s| - 1] in classes.space then "" else [s[|s| - 1]]
    ensures Ink(classes, s) == Ink(classes, front) + last
  {
  }

  lemma {:induction false} InkBlank(classes: CharClasses, s: string)
    ensures Blank(classes, s) ==> Ink(classes, s) == ""
    decreases |s|
  {
    if s != "" {
      InkBlank(classes, s[..|s| - 1]);
    }
  }

  function CommonPart(g: Group): string {
    if g.Same? then g.text else ""
  }

  /** The unchanged text of groups. */
  function CommonOf(groups: seq<Group>): string {
    if groups == [] then "" else CommonOf(groups[..|groups| - 1]) + CommonPart(groups[|groups| - 1])
  }

  /** The old elements that a script keeps, put together. */
  function KeptText(a: seq<string>, ops: seq<SequenceOp>): string {
    if ops == [] then ""
    else
      var last := ops[|ops| - 1];
      KeptText(a, ops[..|ops| - 1]) + if last.Equal? && last.a < |a| then a[last.a] else ""
  }

  lemma CommonOneMore(groups: seq<Group>, g: Group)
    ensures CommonOf(groups + [g]) == CommonOf(groups) + CommonPart(g)
  {
    assert (groups + [g])[..|groups|] == groups;
  }

  lemma CommonLast(groups: seq<Group>, front: seq<Group>)
    requires groups != [] && front == groups[..|groups| - 1]
    ensures CommonOf(groups) == CommonOf(front) + CommonPart(groups[|groups| - 1])
  {
    hide CommonPart;
  }

  lemma ExtendedCommon(groups: seq<Group>, removed: string, added: string)
    requires groups != []
    ensures CommonOf(Extended(groups, removed, added))
         == CommonOf(groups) + if groups[|groups| - 1].Same? then removed else ""
  {
    hide CommonOf, Longer, CommonPart;
    var front, last, more := groups[..|groups| - 1], groups[|groups| - 1], Extended(groups, removed, added);
    assert more[..|more| - 1] == front;
    CommonLast(groups, front);
    CommonLast(more, front);
    LongerCommon(last, removed, added);
    Assoc(CommonOf(front), CommonPart(last), if last.Same? then removed else "");
  }

  lemma LongerCommon(g: Group, removed: string, added: string)
    ensures CommonPart(Longer(g, removed, added)) == CommonPart(g) + if g.Same? then removed else ""
  {
  }

  lemma CommonNext(groups: seq<Group>, k: nat)
    requires k < |groups|
    ensures CommonOf(groups[..k + 1]) == CommonOf(groups[..k]) + CommonPart(groups[k])
    ensures groups[k].Change? ==> CommonOf(groups[..k + 1]) == CommonOf(groups[..k])
  {
    assert groups[..k + 1] == groups[..k] + [groups[k]];
    CommonOneMore(groups[..k], groups[k]);
  }

  lemma KeptTextNext(a: seq<string>, ops: seq<SequenceOp>, k: nat)
    requires k < |ops|
    ensures KeptText(a, ops[..k + 1])
         == KeptText(a, ops[..k]) + if ops[k].Equal? && ops[k].a < |a| then a[ops[k].a] else ""
  {
    assert ops[..k + 1][..k] == ops[..k];
  }

  /** White space that stands alone between two edits. */
  predicate Absorbable(classes: CharClasses, groups: seq<Group>, i: nat)
    requires i < |groups|
  {
    Lone(classes, groups[i]) && 0 < i < |groups| - 1
  }

  /** The unchanged text of the first groups, without white space that stands alone between two edits. */
  function Unabsorbed(classes: CharClasses, groups: seq<Group>, k: nat): string
    requires k <= |groups|
  {
    if k == 0 then ""
    else Unabsorbed(classes, groups, k - 1)
         + if Absorbable(classes, groups, k - 1) then "" else CommonPart(groups[k - 1])
  }

  lemma {:induction false} UnabsorbedInk(classes: CharClasses, groups: seq<Group>, k: nat)
    requires k <= |groups|
    ensures Ink(classes, Unabsorbed(classes, groups, k)) == Ink(classes, CommonOf(groups[..k]))
    decreases k
  {
    if k > 0 {
      hide Ink, CommonOf, Blank;
      UnabsorbedInk(classes, groups, k - 1);
      CommonNext(groups, k - 1);
      var part := CommonPart(groups[k - 1]);
      InkJoin(classes, CommonOf(groups[..k - 1]), part);
      InkBlank(classes, part);
      InkBlank(classes, "");
      InkJoin(classes, Unabsorbed(classes, groups, k - 1), if Absorbable(classes, groups, k - 1) then "" else part);
      BlankNothing(classes);
    }
  }

  lemma UnabsorbedNext(classes: CharClasses, groups: seq<Group>, k: nat)
    requires k < |groups|
    ensures Unabsorbed(classes, groups, k + 1)
         == Unabsorbed(classes, groups, k) + if Absorbable(classes, groups, k) then "" else CommonPart(groups[k])
    ensures Absorbable(classes, groups, k) || groups[k].Change? ==>
      Unabsorbed(classes, groups, k + 1) == Unabsorbed(classes, groups, k)
  {
  }

  lemma BlankNothing(classes: CharClasses)
    ensures Blank(classes, "")
  {
  }

  function Longer(g: Group, removed: string, added: string): Group {
    if g.Same? then Same(g.text + removed) else Change(g.removed + removed, g.added + added)
  }

  lemma Assoc(x: string, y: string, z: string)
    ensures x + (y + z) == (x + y) + z
  {
  }

  /** The last group with more text on both sides. */
  function Extended(groups: seq<Group>, removed: string, added: string): seq<Group>
    requires groups != []
  {
    groups[|groups| - 1 := Longer(groups[|groups| - 1], removed, added)]
  }

  lemma LastGroup(groups: seq<Group>, front: seq<Group>)
    requires groups != [] && front == groups[..|groups| - 1]
    ensures OldOf(groups) == OldOf(front) + Before(groups[|groups| - 1])
    ensures NewOf(groups) == NewOf(front) + After(groups[|groups| - 1])
  {
    hide Before, After;
  }

  lemma ExtendedReads(groups: seq<Group>, removed: string, added: string)
    requires groups != [] && (groups[|groups| - 1].Same? ==> removed == added)
    ensures OldOf(Extended(groups, removed, added)) == OldOf(groups) + removed
    ensures NewOf(Extended(groups, removed, added)) == NewOf(groups) + added
  {
    hide OldOf, NewOf, Longer, Before, After;
    var front, last, more := groups[..|groups| - 1], groups[|groups| - 1], Extended(groups, removed, added);
    assert more[..|more| - 1] == front;
    LastGroup(groups, front);
    LastGroup(more, front);
    LongerReads(last, removed, added);
    Assoc(OldOf(front), Before(last), removed);
    Assoc(NewOf(front), After(last), added);
  }

  lemma LongerReads(g: Group, removed: string, added: string)
    requires g.Same? ==> removed == added
    ensures Before(Longer(g, removed, added)) == Before(g) + removed
      && After(Longer(g, removed, added)) == After(g) + added
  {
  }

  /** Unchanged and changed groups take turns. */
  ghost predicate Alternating(groups: seq<Group>) {
    forall i, j :: 0 <= i && j == i + 1 && j < |groups| ==> groups[i].Same? != groups[j].Same?
  }

  /** Whether a group may follow the ones before it. */
  predicate MayFollow(groups: seq<Group>, g: Group) {
    groups == [] || groups[|groups| - 1].Same? != g.Same?
  }

  /** No white space stands alone between two edits. */
  ghost predicate Unshredded(classes: CharClasses, groups: seq<Group>) {
    forall i :: 0 < i < |groups| - 1 ==> !Lone(classes, groups[i])
  }

  predicate Lone(classes: CharClasses, g: Group) {
    g.Same? && g.text != "" && Blank(classes, g.text)
  }

  ghost predicate AllSame(groups: seq<Group>) {
    forall i :: 0 <= i < |groups| ==> groups[i].Same?
  }

  /** One more operation: it goes into the last group if that is of its kind, and else begins a new one. */
  method AddOp(groups: seq<Group>, same: bool, removed: string, added: string) returns (more: seq<Group>)
    requires same ==> removed == added
    ensures OldOf(more) == OldOf(groups) + removed && NewOf(more) == NewOf(groups) + added
    ensures CommonOf(more) == CommonOf(groups) + if same then removed else ""
    ensures AllSame(groups) && same ==> AllSame(more)
    ensures Alternating(groups) ==> Alternating(more)
  {
    hide OldOf, NewOf, CommonOf;
    if groups != [] && groups[|groups| - 1].Same? == same {
      ExtendedReads(groups, removed, added);
      ExtendedCommon(groups, removed, added);
      more := Extended(groups, removed, added);
    } else {
      var group := if same then Same(removed) else Change(removed, added);
      OneMore(groups, group);
      CommonOneMore(groups, group);
      more := groups + [group];
    }
  }

  method GroupOps(a: seq<string>, b: seq<string>, ops: seq<SequenceOp>) returns (groups: seq<Group>)
    requires IsEditScript(a, b, (x: string, y: string) => x == y, ops)
    ensures OldOf(groups) == Concat(a) && NewOf(groups) == Concat(b)
    ensures CommonOf(groups) == KeptText(a, ops)
    ensures (forall i :: 0 <= i < |ops| ==> ops[i].Equal?) ==> AllSame(groups)
    ensures Alternating(groups)
  {
    hide OldSide, NewSide, ReadTo, OldOf, NewOf, Concat, Alternating, AllSame, CommonOf, KeptText;
    groups := [];
    ghost var i, j := 0, 0;
    ReadNothing(ops);
    Empties(a, b, ops);
    for k := 0 to |ops|
      invariant ReadTo(ops, k, i, j) && i <= |a| && j <= |b|
      invariant OldOf(groups) == Concat(a[..i]) && NewOf(groups) == Concat(b[..j])
      invariant CommonOf(groups) == KeptText(a, ops[..k])
      invariant (forall n :: 0 <= n < k ==> ops[n].Equal?) ==> AllSame(groups)
      invariant Alternating(groups)
    {
      NextOp(ops, |a|, |b|, k, i, j);
      KeptTextNext(a, ops, k);
      assert ops[k] in ops;
      match ops[k] {
        case Equal(x, y) =>
          ConcatNext(a, i);
          ConcatNext(b, j);
          groups := AddOp(groups, true, a[x], b[y]);
          i, j := i + 1, j + 1;
        case Removed(x) =>
          ConcatNext(a, i);
          groups := AddOp(groups, false, a[x], "");
          i := i + 1;
        case Added(y) =>
          ConcatNext(b, j);
          groups := AddOp(groups, false, "", b[y]);
          j := j + 1;
      }
    }
    ReadAll(ops, |a|, |b|, i, j);
    assert a[..i] == a && b[..j] == b && ops[..|ops|] == ops;
  }

  lemma Empties(a: seq<string>, b: seq<string>, ops: seq<SequenceOp>)
    ensures CommonOf([]) == KeptText(a, ops[..0])
    ensures OldOf([]) == Concat(a[..0]) && NewOf([]) == Concat(b[..0]) && AllSame([]) && Alternating([])
  {
  }

  predicate Blank(classes: CharClasses, s: string) {
    forall i :: 0 <= i < |s| ==> s[i] in classes.space
  }

  /** What absorbing keeps of the groups it has put out, and what it needs to go on to `next`. */
  ghost predicate Absorbed(classes: CharClasses, out: seq<Group>, next: Option<Group>) {
    && Alternating(out) && Unshredded(classes, out)
    && (next.Some? ==> MayFollow(out, next.value) && (|out| > 1 ==> !Lone(classes, out[|out| - 1])))
  }

  /** A change that grows takes nothing from its neighbours. */
  lemma AbsorbedChange(classes: CharClasses, out: seq<Group>, g: Group, removed: string, added: string,
                       next: Option<Group>)
    requires Absorbed(classes, out, Some(g)) && out != [] && out[|out| - 1].Change? && (next.Some? ==> next.value.Same?)
    ensures Absorbed(classes, Extended(out, removed, added), next)
  {
    hide Lone;
    var more := Extended(out, removed, added);
    assert !more[|more| - 1].Same?;
    ChangeIsNotLone(classes, more[|more| - 1]);
  }

  lemma ChangeIsNotLone(classes: CharClasses, g: Group)
    requires g.Change?
    ensures !Lone(classes, g)
  {
  }

  lemma AbsorbedPush(classes: CharClasses, out: seq<Group>, g: Group, next: Option<Group>)
    requires Absorbed(classes, out, Some(g)) && (next.Some? ==> next.value.Same? != g.Same?)
    requires next.Some? && out != [] ==> !Lone(classes, g)
    ensures Absorbed(classes, out + [g], next)
  {
    hide Lone;
    var more := out + [g];
    assert forall i :: 0 <= i < |out| ==> more[i] == out[i];
  }

  method AbsorbSpaces(classes: CharClasses, groups: seq<Group>) returns (out: seq<Group>)
    ensures OldOf(out) == OldOf(groups) && NewOf(out) == NewOf(groups)
    ensures AllSame(groups) ==> AllSame(out)
    ensures Alternating(groups) ==> Alternating(out) && Unshredded(classes, out)
    ensures Alternating(groups) ==> CommonOf(out) == Unabsorbed(classes, groups, |groups|)
  {
    hide OldOf, NewOf, Absorbed, Unshredded, Blank, CommonOf, Unabsorbed;
    out := [];
    var i := 0;
    assert groups[..0] == [];
    NothingAbsorbed(classes, groups);
    while i < |groups|
      invariant 0 <= i <= |groups|
      invariant OldOf(out) == OldOf(groups[..i]) && NewOf(out) == NewOf(groups[..i])
      invariant AllSame(groups) ==> AllSame(out)
      invariant Alternating(groups) ==> Absorbed(classes, out, At(groups, i))
      invariant Alternating(groups) ==> CommonOf(out) == Unabsorbed(classes, groups, i)
      invariant out != [] <==> i > 0
    {
      var group := groups[i];
      var changing := out != [] && out[|out| - 1].Change?;
      GroupNext(groups, i);
      if Lone(classes, group) && changing && i + 1 < |groups| && groups[i + 1].Change? {
        GroupNext(groups, i + 1);
        var removed, added := group.text + groups[i + 1].removed, group.text + groups[i + 1].added;
        ExtendedReads(out, removed, added);
        if Alternating(groups) {
          AbsorbedChange(classes, out, group, removed, added, At(groups, i + 2));
          ExtendedCommon(out, removed, added);
          UnabsorbedNext(classes, groups, i);
          UnabsorbedNext(classes, groups, i + 1);
        }
        LoneReads(OldOf(out), group, groups[i + 1], classes, NewOf(out));
        out := Extended(out, removed, added);
        i := i + 2;
      } else if group.Change? && changing {
        ExtendedReads(out, group.removed, group.added);
        if Alternating(groups) {
          AbsorbedChange(classes, out, group, group.removed, group.added, At(groups, i + 1));
          ExtendedCommon(out, group.removed, group.added);
          UnabsorbedNext(classes, groups, i);
        }
        out := Extended(out, group.removed, group.added);
        i := i + 1;
      } else {
        OneMore(out, group);
        if Alternating(groups) {
          Follows(classes, out, group);
          AbsorbedPush(classes, out, group, At(groups, i + 1));
          CommonOneMore(out, group);
          UnabsorbedNext(classes, groups, i);
        }
        out := out + [group];
        i := i + 1;
      }
    }
    assert groups[..i] == groups;
    Finished(classes, out);
  }

  function At(groups: seq<Group>, i: nat): Option<Group> {
    if i < |groups| then Some(groups[i]) else None
  }

  lemma NothingAbsorbed(classes: CharClasses, groups: seq<Group>)
    ensures Absorbed(classes, [], At(groups, 0)) && CommonOf([]) == Unabsorbed(classes, groups, 0)
  {
  }

  lemma Follows(classes: CharClasses, out: seq<Group>, g: Group)
    requires Absorbed(classes, out, Some(g))
    ensures MayFollow(out, g) && (g.Change? ==> !Lone(classes, g))
  {
  }

  lemma Finished(classes: CharClasses, out: seq<Group>)
    ensures Absorbed(classes, out, None) ==> Alternating(out) && Unshredded(classes, out)
  {
  }

  /** White space and the change after it read the same taken one by one or as one. */
  lemma LoneReads(was: string, g: Group, next: Group, classes: CharClasses, now: string)
    requires Lone(classes, g) && next.Change?
    ensures was + Before(g) + Before(next) == was + (g.text + next.removed)
    ensures now + After(g) + After(next) == now + (g.text + next.added)
  {
  }

  // Segments.

  function OldPart(s: Segment): string {
    if s.kind == Inserted then "" else s.text
  }

  function NewPart(s: Segment): string {
    if s.kind == Deleted then "" else s.text
  }

  /** What a reader of the unchanged and the removed segments reads. */
  function OldText(segments: seq<Segment>): string {
    if segments == [] then "" else OldText(segments[..|segments| - 1]) + OldPart(segments[|segments| - 1])
  }

  /** What a reader of the unchanged and the added segments reads. */
  function NewText(segments: seq<Segment>): string {
    if segments == [] then "" else NewText(segments[..|segments| - 1]) + NewPart(segments[|segments| - 1])
  }

  lemma OneSegment(segments: seq<Segment>, s: Segment)
    ensures OldText(segments + [s]) == OldText(segments) + OldPart(s)
      && NewText(segments + [s]) == NewText(segments) + NewPart(s)
  {
    assert (segments + [s])[..|segments|] == segments;
  }

  /** The text of the unchanged segments. */
  function CommonText(segments: seq<Segment>): string {
    if segments == [] then ""
    else
      var last := segments[|segments| - 1];
      CommonText(segments[..|segments| - 1]) + if last.kind == Unchanged then last.text else ""
  }

  lemma CommonSegment(segments: seq<Segment>, s: Segment)
    ensures CommonText(segments + [s]) == CommonText(segments) + if s.kind == Unchanged then s.text else ""
  {
    assert (segments + [s])[..|segments|] == segments;
  }

  /** No segment is empty and neighbours differ in kind. */
  ghost predicate Tidy(segments: seq<Segment>) {
    && (forall i :: 0 <= i < |segments| ==> segments[i].text != "")
    && forall i, j :: 0 <= i && j == i + 1 && j < |segments| ==> segments[i].kind != segments[j].kind
  }

  ghost predicate NoMarks(segments: seq<Segment>) {
    forall i :: 0 <= i < |segments| ==> segments[i].kind == Unchanged
  }

  method Push(out: seq<Segment>, kind: SegmentKind, text: string) returns (r: seq<Segment>)
    requires Tidy(out)
    ensures Tidy(r) && (NoMarks(out) && kind == Unchanged ==> NoMarks(r))
    ensures OldText(r) == OldText(out) + OldPart(Segment(kind, text))
      && NewText(r) == NewText(out) + NewPart(Segment(kind, text))
    ensures CommonText(r) == CommonText(out) + if kind == Unchanged then text else ""
  {
    hide OldText, NewText, CommonText;
    if text == "" {
      return out;
    }
    OneSegment(out, Segment(kind, text));
    CommonSegment(out, Segment(kind, text));
    if out != [] && out[|out| - 1].kind == kind {
      var front, last := out[..|out| - 1], out[|out| - 1];
      assert out == front + [last];
      OneSegment(front, last);
      OneSegment(front, Segment(kind, last.text + text));
      Assoc(OldText(front), last.text, text);
      Assoc(NewText(front), last.text, text);
      CommonSegment(front, last);
      CommonSegment(front, Segment(kind, last.text + text));
      Assoc(CommonText(front), last.text, text);
      return front + [Segment(kind, last.text + text)];
    }
    return out + [Segment(kind, text)];
  }

  method CommonPrefix(x: string, y: string) returns (p: string)
    ensures p <= x && p <= y && (|p| < |x| && |p| < |y| ==> x[|p|] != y[|p|])
  {
    var i := 0;
    while i < |x| && i < |y| && x[i] == y[i]
      invariant 0 <= i <= |x| && i <= |y| && x[..i] == y[..i]
    {
      i := i + 1;
    }
    return x[..i];
  }

  method CommonSuffix(x: string, y: string) returns (p: string)
    ensures |p| <= |x| && |p| <= |y| && p == x[|x| - |p|..] && p == y[|y| - |p|..]
    ensures |p| < |x| && |p| < |y| ==> x[|x| - 1 - |p|] != y[|y| - 1 - |p|]
  {
    var i := 0;
    while i < |x| && i < |y| && x[|x| - 1 - i] == y[|y| - 1 - i]
      invariant 0 <= i <= |x| && i <= |y| && SameEnd(x, y, i)
    {
      i := i + 1;
    }
    SameEnds(x, y, i);
    return x[|x| - i..];
  }

  ghost predicate SameEnd(x: string, y: string, n: nat) {
    n <= |x| && n <= |y| && forall i, j :: |x| - n <= i < |x| && j == i + |y| - |x| ==> x[i] == y[j]
  }

  lemma SameEnds(x: string, y: string, n: nat)
    requires SameEnd(x, y, n)
    ensures x[|x| - n..] == y[|y| - n..]
  {
    var p, q := x[|x| - n..], y[|y| - n..];
    forall i | 0 <= i < n
      ensures p[i] == q[i]
    {
      assert x[|x| - n + i] == y[|y| - n + i];
    }
  }

  /** Where the white space at the end of a text begins. */
  function TrailStart(text: string, space: set<char>): (i: nat)
    ensures i <= |text| && (forall k :: i <= k < |text| ==> text[k] in space) && (i > 0 ==> text[i - 1] !in space)
  {
    if text != "" && text[|text| - 1] in space then TrailStart(text[..|text| - 1], space) else |text|
  }

  method PeelLead(classes: CharClasses, removed: string, added: string) returns (lead: string)
    ensures lead <= removed && lead <= added && Blank(classes, lead)
    ensures |lead| < |removed| && |lead| < |added| ==>
      removed[|lead|] != added[|lead|] || removed[|lead|] !in classes.space
  {
    var prefix := CommonPrefix(removed, added);
    var n := RunEnd(prefix, 0, classes.space);
    lead := prefix[..n];
  }

  method PeelTrail(classes: CharClasses, removed: string, added: string) returns (trail: string, r: string, a: string)
    ensures removed == r + trail && added == a + trail && Blank(classes, trail)
    ensures r != "" && a != "" ==> r[|r| - 1] != a[|a| - 1] || r[|r| - 1] !in classes.space
  {
    hide TrailStart, Blank;
    var suffix := CommonSuffix(removed, added);
    var t := TrailStart(suffix, classes.space);
    trail := suffix[t..];
    r, a := removed[..|removed| - (|suffix| - t)], added[..|added| - (|suffix| - t)];
    TrailIsBlank(classes, suffix, t);
    TrailEdge(classes, removed, added, suffix, t, r, a);
    PeeledOff(removed, suffix, t, r);
    PeeledOff(added, suffix, t, a);
  }

  lemma TrailIsBlank(classes: CharClasses, suffix: string, t: nat)
    requires t <= |suffix| && forall k :: t <= k < |suffix| ==> suffix[k] in classes.space
    ensures Blank(classes, suffix[t..])
  {
  }

  lemma PeeledOff(s: string, suffix: string, t: nat, rest: string)
    requires t <= |suffix| <= |s| && suffix == s[|s| - |suffix|..] && rest == s[..|s| - (|suffix| - t)]
    ensures s == rest + suffix[t..]
  {
    var n := |s| - |suffix|;
    var trail, whole := suffix[t..], rest + suffix[t..];
    forall k | 0 <= k < |s|
      ensures s[k] == whole[k]
    {
      if k >= |rest| {
        assert whole[k] == trail[k - |rest|] == suffix[k - n];
      }
    }
  }

  /** What a trail leaves ends with the rest of the common suffix, or right before it. */
  lemma LastOf(s: string, suffix: string, t: nat, rest: string)
    requires t <= |suffix| <= |s| && suffix == s[|s| - |suffix|..] && rest == s[..|s| - (|suffix| - t)] && rest != ""
    ensures rest[|rest| - 1] == if t > 0 then suffix[t - 1] else s[|s| - 1 - |suffix|]
  {
  }

  lemma TrailEdge(classes: CharClasses, x: string, y: string, suffix: string, t: nat, r: string, a: string)
    requires t <= |suffix| <= |x| && |suffix| <= |y| && suffix == x[|x| - |suffix|..] && suffix == y[|y| - |suffix|..]
    requires r == x[..|x| - (|suffix| - t)] && a == y[..|y| - (|suffix| - t)]
    requires |suffix| < |x| && |suffix| < |y| ==> x[|x| - 1 - |suffix|] != y[|y| - 1 - |suffix|]
    requires t > 0 ==> suffix[t - 1] !in classes.space
    ensures r != "" && a != "" ==> r[|r| - 1] != a[|a| - 1] || r[|r| - 1] !in classes.space
  {
    if r != "" && a != "" {
      LastOf(x, suffix, t, r);
      LastOf(y, suffix, t, a);
    }
  }

  /** White space both sides of an edit share at its edges is peeled off, all of it. */
  method Peel(classes: CharClasses, removed: string, added: string)
    returns (lead: string, r: string, a: string, trail: string)
    ensures removed == lead + (r + trail) && added == lead + (a + trail)
    ensures Blank(classes, lead) && Blank(classes, trail)
    ensures r != "" && a != "" ==> r[0] != a[0] || r[0] !in classes.space
    ensures r != "" && a != "" ==> r[|r| - 1] != a[|a| - 1] || r[|r| - 1] !in classes.space
  {
    hide Blank;
    lead := PeelLead(classes, removed, added);
    var restRemoved, restAdded := removed[|lead|..], added[|lead|..];
    trail, r, a := PeelTrail(classes, restRemoved, restAdded);
    assert r != "" && a != "" ==> r[0] == restRemoved[0] == removed[|lead|] && a[0] == restAdded[0] == added[|lead|];
  }

  method ToSegments(classes: CharClasses, groups: seq<Group>) returns (out: seq<Segment>)
    ensures OldText(out) == OldOf(groups) && NewText(out) == NewOf(groups) && Tidy(out)
    ensures AllSame(groups) ==> NoMarks(out)
    ensures Ink(classes, CommonText(out)) == Ink(classes, CommonOf(groups))
  {
    hide OldOf, NewOf, OldText, NewText, Tidy, CommonText, CommonOf, Ink, Blank;
    out := [];
    Untouched(groups);
    for k := 0 to |groups|
      invariant Tidy(out) && OldText(out) == OldOf(groups[..k]) && NewText(out) == NewOf(groups[..k])
      invariant AllSame(groups) ==> NoMarks(out)
      invariant Ink(classes, CommonText(out)) == Ink(classes, CommonOf(groups[..k]))
    {
      GroupNext(groups, k);
      CommonNext(groups, k);
      match groups[k] {
        case Same(text) =>
          InkJoin(classes, CommonText(out), text);
          InkJoin(classes, CommonOf(groups[..k]), text);
          out := Push(out, Unchanged, text);
        case Change(before, after) =>
          ghost var was := out;
          var lead, removed, added, trail := Peel(classes, before, after);
          out := Push(out, Unchanged, lead);
          out := Push(out, Deleted, removed);
          out := Push(out, Inserted, added);
          out := Push(out, Unchanged, trail);
          BlankAround(classes, CommonText(was), lead, trail);
          Around(OldText(was), lead, removed, trail);
          Around(NewText(was), lead, added, trail);
      }
    }
    assert groups[..|groups|] == groups;
  }

  /** White space put on either side of an edit adds no ink. */
  lemma BlankAround(classes: CharClasses, x: string, lead: string, trail: string)
    requires Blank(classes, lead) && Blank(classes, trail)
    ensures Ink(classes, x + lead + "" + "" + trail) == Ink(classes, x)
  {
    hide Ink;
    assert x + lead + "" + "" == x + lead;
    InkJoin(classes, x + lead, trail);
    InkJoin(classes, x, lead);
    InkBlank(classes, lead);
    InkBlank(classes, trail);
  }

  lemma Around(x: string, lead: string, middle: string, trail: string)
    ensures x + lead + middle + trail == x + (lead + (middle + trail))
    ensures x + lead + "" == x + lead && x + lead + middle + "" == x + lead + middle
  {
    Assoc(lead, middle, trail);
    Assoc(x, lead, middle);
    Assoc(x, lead + middle, trail);
  }

  lemma Untouched(groups: seq<Group>)
    ensures OldText([]) == OldOf(groups[..0]) && NewText([]) == NewOf(groups[..0]) && Tidy([])
    ensures CommonText([]) == CommonOf(groups[..0])
  {
  }

  /** A script that keeps a longest common subsequence. */
  ghost predicate KeepsLongest(a: seq<string>, b: seq<string>, ops: seq<SequenceOp>) {
    && IsEditScript(a, b, (x: string, y: string) => x == y, ops)
    && forall other :: IsEditScript(a, b, (x: string, y: string) => x == y, other) ==>
      KeptCount(other) <= KeptCount(ops)
  }

  /** No more is marked than needed: up to white space, the unmarked text is the tokens of a longest common subsequence
    of the two texts' tokens. */
  ghost predicate MarksLittle(classes: CharClasses, before: string, after: string, unmarked: string) {
    exists a, b, ops :: MarkedBy(classes, before, after, unmarked, a, b, ops)
  }

  ghost predicate MarkedBy(classes: CharClasses, before: string, after: string, unmarked: string, a: seq<string>,
                           b: seq<string>, ops: seq<SequenceOp>) {
    && AreTokens(classes, before, a) && AreTokens(classes, after, b) && KeepsLongest(a, b, ops)
    && Ink(classes, unmarked) == Ink(classes, KeptText(a, ops))
  }

  lemma CheapestIsLongest(a: seq<string>, b: seq<string>, ops: seq<SequenceOp>)
    requires IsEditScript(a, b, (x: string, y: string) => x == y, ops)
    requires forall other :: IsEditScript(a, b, (x: string, y: string) => x == y, other) ==> Edits(ops) <= Edits(other)
    ensures KeepsLongest(a, b, ops)
  {
    hide OldSide, NewSide, Edits, KeptCount;
    forall other | IsEditScript(a, b, (x: string, y: string) => x == y, other)
      ensures KeptCount(other) <= KeptCount(ops)
    {
      CheapestKeepsMost(a, b, (x: string, y: string) => x == y, ops, other);
    }
  }

  /** The unchanged and removed segments read as the old text and the unchanged and added ones as the new, exactly;
    nothing is marked when, and only when, the texts are the same; and no more is marked than needed. */
  method WordDiff(classes: CharClasses, before: string, after: string) returns (segments: seq<Segment>)
    ensures OldText(segments) == before && NewText(segments) == after && Tidy(segments)
    ensures NoMarks(segments) <==> before == after
    ensures MarksLittle(classes, before, after, CommonText(segments))
  {
    hide OldText, NewText, OldOf, NewOf, Tokens, Concat, OldSide, NewSide, Edits, CommonOf, CommonText, KeptText, Ink,
      KeepsLongest, IsToken, Maximal, Unabsorbed;
    var a, b := Tokens(classes, before, 0), Tokens(classes, after, 0);
    TokensCover(classes, before, 0);
    TokensCover(classes, after, 0);
    TokensAreTokens(classes, before, 0);
    TokensAreTokens(classes, after, 0);
    var equals := (x: string, y: string) => x == y;
    var ops := DiffSequence(a, b, equals);
    NoEditIff(a, b, equals, ops);
    NoEditsAllEqual(ops);
    CheapestIsLongest(a, b, ops);
    var groups := GroupOps(a, b, ops);
    assert groups[..|groups|] == groups;
    UnabsorbedInk(classes, groups, |groups|);
    var absorbed := AbsorbSpaces(classes, groups);
    segments := ToSegments(classes, absorbed);
    SameTexts(segments);
    assert MarkedBy(classes, before, after, CommonText(segments), a, b, ops);
  }

  lemma {:induction false} SameTexts(segments: seq<Segment>)
    ensures NoMarks(segments) ==> OldText(segments) == NewText(segments)
  {
    if segments != [] {
      SameTexts(segments[..|segments| - 1]);
    }
  }
}
