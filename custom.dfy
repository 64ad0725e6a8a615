/**
 * User-built formatters: the `{placeholder}` template formatter, the combination of
 * several formatters joined by " | ", and the conditional choice between two formatters.
 */
module CustomFormatters {
  import opened LogRecords
  import opened Strings
  import opened BasicFormatters

  /** A `{word}` placeholder: a brace at each end and no brace inside. */
  predicate IsPlaceholder(p: string) {
    |p| >= 2 && p[0] == '{' && p[|p| - 1] == '}' &&
    forall i :: 0 < i < |p| - 1 ==> p[i] != '{' && p[i] != '}'
  }

  /** The placeholders of the template formatter, in the order it substitutes them. */
  const PLACEHOLDERS: seq<string> := ["{timestamp}", "{level}", "{name}", "{message}", "{level_num}"]

  /** Each placeholder paired with the record text that replaces it, in substitution order. */
  function Substitutions(r: LogRecord): (subs: seq<(string, string)>)
    ensures |subs| == |PLACEHOLDERS|
    ensures forall k :: 0 <= k < |subs| ==> subs[k].0 == PLACEHOLDERS[k] && IsPlaceholder(subs[k].0)
  {
    [("{timestamp}", r.timestamp.iso), ("{level}", r.levelName), ("{name}", r.name),
     ("{message}", r.message), ("{level_num}", IntToString(r.level))]
  }

  /**
   * `s.replace(/p1/g, t1).replace(/p2/g, t2)…`: the substitutions one after another
   * (an empty pattern, which the formatter never uses, is skipped).
   */
  function ReplaceEach(s: string, subs: seq<(string, string)>): (r: string)
    ensures (forall k :: 0 <= k < |subs| ==> !Occurs(s, subs[k].0)) ==> r == s
    decreases |subs|
  {
    if |subs| == 0 then s
    else if |subs[0].0| == 0 then ReplaceEach(s, subs[1..])
    else if !Occurs(s, subs[0].0) then
      ReplaceAllAbsent(s, subs[0].0, subs[0].1);
      ReplaceEach(ReplaceAll(s, subs[0].0, subs[0].1), subs[1..])
    else ReplaceEach(ReplaceAll(s, subs[0].0, subs[0].1), subs[1..])
  }

  /**
   * JavaScript reads `$&`, `$1`, `$$`, … in a replacement string as patterns; the model
   * covers records whose replacement texts hold no `$`, where the text is inserted as is.
   */
  predicate LiteralReplacements(r: LogRecord) {
    '$' !in r.timestamp.iso && '$' !in r.levelName && '$' !in r.name && '$' !in r.message
  }

  /** The record formatted by `createTemplateFormatter(template)`. */
  function TemplateFormat(template: string, r: LogRecord): (line: string)
    requires LiteralReplacements(r)
    ensures (forall k :: 0 <= k < |PLACEHOLDERS| ==> !Occurs(template, PLACEHOLDERS[k])) ==> line == template
  {
    ReplaceEach(template, Substitutions(r))
  }

  // ---------- one global replacement ----------

  /** The pattern alone is replaced by the replacement. */
  lemma ReplaceAllSelf(p: string, rep: string)
    requires |p| > 0
    ensures ReplaceAll(p, p, rep) == rep
  {
    assert p[..|p|] == p && p[|p|..] == [];
  }

  /** A placeholder at the front is replaced, and the scan resumes right after it. */
  lemma ReplaceAllAtFront(p: string, y: string, rep: string)
    requires |p| > 0
    ensures ReplaceAll(p + y, p, rep) == rep + ReplaceAll(y, p, rep)
  {
    assert (p + y)[..|p|] == p && (p + y)[|p|..] == y;
  }

  /** Text without an opening brace is copied as it is, whatever placeholder is sought. */
  lemma {:induction false} ReplaceAllBraceFree(x: string, y: string, p: string, rep: string)
    requires IsPlaceholder(p) && '{' !in x
    ensures ReplaceAll(x + y, p, rep) == x + ReplaceAll(y, p, rep)
    decreases |x|
  {
    if |x| == 0 {
      assert x + y == y;
    } else {
      var s := x + y;
      assert s[0] == x[0] && s[1..] == x[1..] + y;
      if |s| < |p| {
        assert ReplaceAll(y, p, rep) == y;
      } else {
        assert s[..|p|][0] != p[0];
        ReplaceAllBraceFree(x[1..], y, p, rep);
        assert ReplaceAll(s, p, rep) == [x[0]] + (x[1..] + ReplaceAll(y, p, rep));
        assert [x[0]] + x[1..] == x;
      }
    }
  }

  /** A placeholder holds no other placeholder. */
  lemma ReplaceAllOtherPlaceholder(q: string, p: string, rep: string)
    requires IsPlaceholder(p) && IsPlaceholder(q) && p != q
    ensures ReplaceAll(q, p, rep) == q
  {
    assert !Occurs(q, p);
    ReplaceAllAbsent(q, p, rep);
  }

  /**
   * Every occurrence is replaced: pieces of brace-free text joined by a placeholder
   * come out joined by the replacement.
   */
  lemma {:induction false} ReplaceAllEveryOccurrence(texts: seq<string>, p: string, rep: string)
    requires IsPlaceholder(p)
    requires |texts| >= 1
    requires forall i :: 0 <= i < |texts| ==> '{' !in texts[i]
    ensures ReplaceAll(Join(texts, p), p, rep) == Join(texts, rep)
  {
    if |texts| == 1 {
      ReplaceAllBraceFree(texts[0], "", p, rep);
      assert texts[0] + "" == texts[0];
    } else {
      var rest := Join(texts[1..], p);
      ReplaceAllEveryOccurrence(texts[1..], p, rep);
      assert Join(texts, p) == texts[0] + (p + rest);
      ReplaceAllBraceFree(texts[0], p + rest, p, rep);
      ReplaceAllAtFront(p, rest, rep);
    }
  }

  // ---------- the substitution chain ----------

  /**
   * A placeholder alone survives the substitutions before its own, becomes its
   * replacement text, and that text then goes through the substitutions after it.
   */
  lemma {:induction false} ReplaceEachReachesPlaceholder(subs: seq<(string, string)>, k: nat)
    requires k < |subs|
    requires forall j :: 0 <= j < |subs| ==> IsPlaceholder(subs[j].0)
    requires forall j :: 0 <= j < k ==> subs[j].0 != subs[k].0
    ensures ReplaceEach(subs[k].0, subs) == ReplaceEach(subs[k].1, subs[k + 1..])
  {
    if k == 0 {
      ReplaceAllSelf(subs[0].0, subs[0].1);
    } else {
      ReplaceAllOtherPlaceholder(subs[k].0, subs[0].0, subs[0].1);
      ReplaceEachReachesPlaceholder(subs[1..], k - 1);
      assert subs[1..][k - 1] == subs[k] && subs[1..][k..] == subs[k + 1..];
    }
  }

  // ---------- the template formatter ----------

  /** `{level_num}` alone gives the numeric level. */
  lemma TemplateLevelNum(r: LogRecord)
    requires LiteralReplacements(r)
    ensures TemplateFormat("{level_num}", r) == IntToString(r.level)
  {
    var subs := Substitutions(r);
    ReplaceEachReachesPlaceholder(subs, 4);
  }

  /**
   * `{message}` alone gives the message after the one substitution that follows it, so
   * a `{level_num}` inside the message is filled in while `{name}`, `{level}` and
   * `{timestamp}` inside it stay literal.
   */
  lemma TemplateMessage(r: LogRecord)
    requires LiteralReplacements(r)
    ensures TemplateFormat("{message}", r) == ReplaceAll(r.message, "{level_num}", IntToString(r.level))
  {
    var subs := Substitutions(r);
    ReplaceEachReachesPlaceholder(subs, 3);
    assert subs[4..] == [("{level_num}", IntToString(r.level))];
  }

  /** A message reading `{name}` is printed literally by the template `{message}`. */
  lemma TemplateMessageKeepsName(r: LogRecord)
    requires LiteralReplacements(r) && r.message == "{name}"
    ensures TemplateFormat("{message}", r) == "{name}"
  {
    TemplateMessage(r);
    assert IsPlaceholder("{name}") && IsPlaceholder("{level_num}");
    ReplaceAllOtherPlaceholder("{name}", "{level_num}", IntToString(r.level));
  }

  /** A message reading `{level_num}` is replaced by the level number under the template `{message}`. */
  lemma TemplateMessageFillsLevelNum(r: LogRecord)
    requires LiteralReplacements(r) && r.message == "{level_num}"
    ensures TemplateFormat("{message}", r) == IntToString(r.level)
  {
    TemplateMessage(r);
    ReplaceAllSelf("{level_num}", IntToString(r.level));
  }

  /** Substituting `{level}` leaves `{level_num}` alone: the two differ at the sixth character. */
  lemma LevelKeepsLevelNum(rep: string)
    ensures ReplaceAll("{level_num}", "{level}", rep) == "{level_num}"
  {
    assert IsPlaceholder("{level}") && IsPlaceholder("{level_num}");
    ReplaceAllOtherPlaceholder("{level_num}", "{level}", rep);
  }

  // ---------- combination and choice ----------

  /** The formatters' outputs for one record, in order. */
  function Outputs(fs: seq<Formatter>, r: LogRecord): (outs: seq<string>)
    ensures |outs| == |fs|
    ensures forall i :: 0 <= i < |fs| ==> outs[i] == fs[i](r)
  {
    seq(|fs|, i requires 0 <= i < |fs| => fs[i](r))
  }

  /**
   * `combineFormatters(...fs)`: every formatter's output, in order, joined by " | ";
   * the empty combination gives "" and a single formatter is itself.
   */
  function CombineFormatters(fs: seq<Formatter>): (f: Formatter)
    ensures |fs| == 0 ==> forall r :: f(r) == ""
    ensures |fs| == 1 ==> forall r :: f(r) == fs[0](r)
  {
    r => Join(Outputs(fs, r), " | ")
  }

  /** One more formatter adds " | " and its output at the end. */
  lemma CombineSnoc(fs: seq<Formatter>, g: Formatter, r: LogRecord)
    requires |fs| >= 1
    ensures CombineFormatters(fs + [g])(r) == CombineFormatters(fs)(r) + " | " + g(r)
  {
    assert Outputs(fs + [g], r) == Outputs(fs, r) + [g(r)];
    JoinSnoc(Outputs(fs, r), g(r), " | ");
  }

  /** `createConditionalFormatter(condition, t, f)`: `t` where the condition holds, `f` elsewhere. */
  function ConditionalFormatter(condition: LogRecord -> bool, whenTrue: Formatter, whenFalse: Formatter): (f: Formatter)
    ensures forall r :: condition(r) ==> f(r) == whenTrue(r)
    ensures forall r :: !condition(r) ==> f(r) == whenFalse(r)
  {
    r => if condition(r) then whenTrue(r) else whenFalse(r)
  }

  /** Negating the condition and swapping the branches gives the same formatter. */
  lemma ConditionalSwap(condition: LogRecord -> bool, whenTrue: Formatter, whenFalse: Formatter, r: LogRecord)
    ensures ConditionalFormatter(x => !condition(x), whenFalse, whenTrue)(r) ==
            ConditionalFormatter(condition, whenTrue, whenFalse)(r)
  {
  }
}
