/**
 * The matcher on the single-file components of the matcher's test table:
 * an empty template, one script block with the given opening tag, and an
 * empty style block.
 */
module VueMatcherExamples {
  import opened Strings
  import opened VueMatcher

  const TemplateBlock := "<template></template>"
  const CloseScript := "</script>"
  const StyleBlock := "<style></style>"

  /** The component of the test table whose script block opens with `<script` + `attributes` + `>`. */
  function Component(attributes: string): string {
    TemplateBlock + ScriptOpen + attributes + ">" + CloseScript + StyleBlock
  }

  /** `s` does not start `pattern` at `j`, because the character at `j + d` differs. */
  lemma DiffersAt(s: string, j: nat, pattern: string, d: nat)
    requires d < |pattern| && j + d < |s| && s[j + d] != pattern[d]
    ensures !StartsAt(s, j, pattern)
  {
  }

  /** The characters of the component around its opening tag. */
  lemma ComponentAt(attributes: string, t: nat)
    requires t <= |attributes|
    ensures var s := Component(attributes);
            |s| == |TemplateBlock| + |ScriptOpen| + |attributes| + 1 + |CloseScript| + |StyleBlock|
            && s[|TemplateBlock| + |ScriptOpen| + t] == (attributes + ">")[t]
  {
  }

  /** The blocks around the script block hold no `<script`, and the template block ends a tag. */
  lemma BlocksHaveNoOpenTag(template: string, close: string, style: string)
    requires template == TemplateBlock && close == CloseScript && style == StyleBlock
    ensures NoOpenTag(template) && EndsTag(template) && NoOpenTag(close + style)
  {
    assert template[3] == 'm';
    NoOpenTagWithoutC(template);
    NoOpenTagWithoutC(style);
    forall p: nat | StartsAt(close, p, ScriptOpen) ensures false {
      StartsAtThird(close, p);
      StartsAtFirst(close, p, ScriptOpen);
    }
    NoOpenTagAppend(close, style);
  }

  /** The component decides by its one opening tag. */
  lemma ComponentDecidedByTag(attributes: string)
    requires '<' !in attributes
    ensures var s := Component(attributes);
            && (HasTsTag(s) <==> TsTagAt(s, |TemplateBlock|))
            && (HasJsTag(s) <==> JsTagAt(s, |TemplateBlock|))
  {
    BlocksHaveNoOpenTag(TemplateBlock, CloseScript, StyleBlock);
    OnlyOpenTagDecides(TemplateBlock, attributes, CloseScript + StyleBlock);
    assert Component(attributes) == TemplateBlock + ScriptOpen + attributes + ">" + (CloseScript + StyleBlock);
  }

  /** Where `lang="ts"` starts, its `l`, `=` and `t` follow. */
  lemma LangTsLetters(s: string, m: nat)
    requires StartsAt(s, m, LangTs)
    ensures s[m] == 'l' && s[m + 4] == '=' && s[m + 6] == 't'
  {
    assert s[m..m + |LangTs|][0] == s[m];
    assert s[m..m + |LangTs|][4] == s[m + 4];
    assert s[m..m + |LangTs|][6] == s[m + 6];
  }

  /** The component opens its script block right after the template block. */
  lemma ComponentOpensScript(attributes: string)
    ensures StartsAt(Component(attributes), |TemplateBlock|, ScriptOpen)
  {
    var s := Component(attributes);
    assert s[|TemplateBlock|..|TemplateBlock| + |ScriptOpen|] == ScriptOpen;
  }

  /** The five characters after `from` spell `setup`. */
  lemma SetupAt(attributes: string, t: nat)
    requires t + |Setup| <= |attributes| && attributes[t..t + |Setup|] == Setup
    ensures var s := Component(attributes);
            StartsAt(s, |TemplateBlock| + |ScriptOpen| + t, Setup)
  {
    var s := Component(attributes);
    var j := |TemplateBlock| + |ScriptOpen| + t;
    forall d | 0 <= d < |Setup| ensures s[j + d] == Setup[d] {
      ComponentAt(attributes, t + d);
    }
    assert s[j..j + |Setup|] == Setup;
  }

  /** One space after `<script`, then a character that is not whitespace. */
  lemma OneSpaceAfterOpen(attributes: string)
    requires |attributes| >= 2 && attributes[0] == ' ' && !IsWhitespace(attributes[1])
    ensures var s := Component(attributes);
            var from := |TemplateBlock| + |ScriptOpen|;
            WhitespaceRun(s, from, from + 1) && !IsWhitespace(s[from + 1]) && from + 1 < |s|
  {
    var s := Component(attributes);
    var from := |TemplateBlock| + |ScriptOpen|;
    ComponentAt(attributes, 0);
    ComponentAt(attributes, 1);
    assert s[from..from + 1] == [s[from]];
  }

  /** tsPattern does not match a bare `<script>`. */
  lemma NotTsBare(attributes: string)
    requires attributes == ""
    ensures !TsTagAt(Component(attributes), |TemplateBlock|)
  {
    ComponentOpensScript(attributes);
    ComponentAt(attributes, 0);
    NotTsWithoutGap(Component(attributes), |TemplateBlock|);
  }

  /** tsPattern does not match `<script setup>`. */
  lemma NotTsSetup(attributes: string)
    requires attributes == " setup"
    ensures !TsTagAt(Component(attributes), |TemplateBlock|)
  {
    var from := |TemplateBlock| + |ScriptOpen|;
    ComponentOpensScript(attributes);
    OneSpaceAfterOpen(attributes);
    SetupAt(attributes, 1);
    ComponentAt(attributes, 6);
    NotTsAfterSetup(Component(attributes), |TemplateBlock|, from + 1, from + 6);
  }

  /** tsPattern does not match `<script setup lang="js">`. */
  lemma NotTsSetupLangJs(attributes: string)
    requires attributes == " setup lang=\"js\""
    ensures !TsTagAt(Component(attributes), |TemplateBlock|)
  {
    assert attributes[1..6] == Setup by {
      forall t | 0 <= t < 5 ensures attributes[1 + t] == Setup[t] { }
    }
    NotTsSetupThenOther(attributes);
  }

  /**
   * tsPattern does not match `<script setup ` followed by something other
   * than `lang="ts"`.
   */
  lemma NotTsSetupThenOther(attributes: string)
    requires |attributes| >= 14 && attributes[0] == ' ' && attributes[1..6] == Setup
    requires attributes[6] == ' ' && !IsWhitespace(attributes[7]) && attributes[13] != LangTs[6]
    ensures !TsTagAt(Component(attributes), |TemplateBlock|)
  {
    var s := Component(attributes);
    var from := |TemplateBlock| + |ScriptOpen|;
    ComponentOpensScript(attributes);
    OneSpaceAfterOpen(attributes);
    SetupAt(attributes, 1);
    ComponentAt(attributes, 6);
    ComponentAt(attributes, 7);
    ComponentAt(attributes, 13);
    assert s[from + 6..from + 7] == [s[from + 6]];
    DiffersAt(s, from + 7, LangTs, 6);
    NotTsAfterSetup(s, |TemplateBlock|, from + 1, from + 7);
  }

  /** tsPattern does not match `<script lang="js">`. */
  lemma NotTsLangJs(attributes: string)
    requires attributes == " lang=\"js\""
    ensures !TsTagAt(Component(attributes), |TemplateBlock|)
  {
    var s := Component(attributes);
    var from := |TemplateBlock| + |ScriptOpen|;
    ComponentOpensScript(attributes);
    OneSpaceAfterOpen(attributes);
    ComponentAt(attributes, 7);
    DiffersAt(s, from + 1, LangTs, 6);
    DiffersAt(s, from + 1, Setup, 0);
    NotTsAfterGap(s, |TemplateBlock|, from + 1);
  }

  /** tsPattern does not match `<script generic="T" lang="ts">`. */
  lemma NotTsGeneric(attributes: string)
    requires attributes == " generic=\"T\" lang=\"ts\""
    ensures !TsTagAt(Component(attributes), |TemplateBlock|)
  {
    var s := Component(attributes);
    var from := |TemplateBlock| + |ScriptOpen|;
    ComponentOpensScript(attributes);
    OneSpaceAfterOpen(attributes);
    DiffersAt(s, from + 1, LangTs, 0);
    DiffersAt(s, from + 1, Setup, 0);
    NotTsAfterGap(s, |TemplateBlock|, from + 1);
  }

  /** jsPattern's lookahead finds no `lang="ts"` in the attributes of the 'js' rows. */
  lemma NoLangTsInJsAttributes(attributes: string)
    requires || attributes == "" || attributes == " setup"
             || attributes == " lang=\"js\"" || attributes == " setup lang=\"js\""
    ensures JsTagAt(Component(attributes), |TemplateBlock|)
  {
    forall m: nat | 1 <= m && StartsAt(attributes, m, LangTs) ensures false {
      LangTsLetters(attributes, m);
    }
    JsTagAtOpenTag(TemplateBlock, attributes, CloseScript + StyleBlock);
    assert Component(attributes) == TemplateBlock + ScriptOpen + attributes + ">" + (CloseScript + StyleBlock);
  }

  /** A bare `<script>`, `<script setup>`, `<script lang="js">` and `<script setup lang="js">` give 'js'. */
  lemma JsTagsGiveJs(attributes: string)
    requires || attributes == "" || attributes == " setup"
             || attributes == " lang=\"js\"" || attributes == " setup lang=\"js\""
    ensures GetVueSfcScriptType(Component(attributes)) == Js
  {
    ComponentDecidedByTag(attributes);
    NoLangTsInJsAttributes(attributes);
    if attributes == "" {
      NotTsBare(attributes);
    } else if attributes == " setup" {
      NotTsSetup(attributes);
    } else if attributes == " lang=\"js\"" {
      NotTsLangJs(attributes);
    } else {
      NotTsSetupLangJs(attributes);
    }
  }

  /** `<script lang="ts">` and `<script setup lang="ts">` give 'ts'. */
  lemma TsTagsGiveTs(attributes: string)
    requires attributes == " lang=\"ts\"" || attributes == " setup lang=\"ts\""
    ensures GetVueSfcScriptType(Component(attributes)) == Ts
  {
    if attributes == " lang=\"ts\"" {
      LangTsTagGivesTs(attributes);
    } else {
      SetupLangTsTagGivesTs(attributes);
    }
  }

  lemma LangTsTagGivesTs(attributes: string)
    requires attributes == " lang=\"ts\""
    ensures GetVueSfcScriptType(Component(attributes)) == Ts
  {
    var post := ">" + CloseScript + StyleBlock;
    assert attributes == " " + LangTs;
    assert Component(attributes) == TemplateBlock + ScriptOpen + " " + LangTs + post;
    TsTagGivesTs(TemplateBlock, " ", post);
  }

  lemma SetupLangTsTagGivesTs(attributes: string)
    requires attributes == " setup lang=\"ts\""
    ensures GetVueSfcScriptType(Component(attributes)) == Ts
  {
    var post := ">" + CloseScript + StyleBlock;
    assert attributes == " " + Setup + " " + LangTs;
    assert Component(attributes) == TemplateBlock + ScriptOpen + " " + Setup + " " + LangTs + post;
    SetupTsTagGivesTs(TemplateBlock, " ", " ", post);
  }

  /** A component without a script block gives null. */
  lemma NoScriptBlockGivesNull(content: string)
    requires content == TemplateBlock + StyleBlock
    ensures GetVueSfcScriptType(content) == NoScript
  {
    BlocksHaveNoOpenTag(TemplateBlock, CloseScript, StyleBlock);
    NoOpenTagWithoutC(StyleBlock);
    NoOpenTagAppend(TemplateBlock, StyleBlock);
    NoOpenTagGivesNull(content);
  }

  /**
   * As the only script tag, `<script generic="T" lang="ts">` matches
   * neither pattern: tsPattern admits only `setup` before `lang="ts"`, and
   * the `lang="ts"` vetoes jsPattern.
   */
  lemma OtherAttributeBeforeLangTsGivesNull(attributes: string)
    requires attributes == " generic=\"T\" lang=\"ts\""
    ensures GetVueSfcScriptType(Component(attributes)) == NoScript
  {
    ComponentDecidedByTag(attributes);
    NotTsGeneric(attributes);
    LangTsVetoesJs(attributes);
  }

  /** The `lang="ts"` after a space in `<script generic="T" lang="ts">` vetoes jsPattern. */
  lemma LangTsVetoesJs(attributes: string)
    requires attributes == " generic=\"T\" lang=\"ts\""
    ensures !JsTagAt(Component(attributes), |TemplateBlock|)
  {
    JsTagAtOpenTag(TemplateBlock, attributes, CloseScript + StyleBlock);
    assert Component(attributes) == TemplateBlock + ScriptOpen + attributes + ">" + (CloseScript + StyleBlock);
    LangTsAfterSpace(attributes);
  }

  /** In ` generic="T" lang="ts"`, `lang="ts"` starts at index 13, after a space. */
  lemma LangTsAfterSpace(attributes: string)
    requires attributes == " generic=\"T\" lang=\"ts\""
    ensures StartsAt(attributes, 13, LangTs) && !IsWordChar(attributes[12])
  {
    assert attributes[13..13 + |LangTs|] == LangTs;
  }
}
