/*
 * `renderTemplate` of the kanban build configuration: every `%word%` in the
 * page template whose word has a truthy replacement is replaced by it; any
 * other placeholder stays as written. The matches are those of the global
 * regular expression `%(\w*)%`, found left to right, without overlap, and
 * never rescanned after replacement.
 */
module Template {

  /** A character of the class `\w`. */
  predicate IsWordChar(c: char)
  {
    ('a' <= c <= 'z') || ('A' <= c <= 'Z') || ('0' <= c <= '9') || c == '_'
  }

  predicate IsWord(s: string)
  {
    forall k :: 0 <= k < |s| ==> IsWordChar(s[k])
  }

  /** The length of the longest prefix of `s` made of word characters. */
  function WordRun(s: string): (n: nat)
    ensures n <= |s|
    ensures IsWord(s[..n])
    ensures n < |s| ==> !IsWordChar(s[n])
  {
    if s == [] || !IsWordChar(s[0]) then 0 else 1 + WordRun(s[1..])
  }

  /** `replacements[key]` is truthy: present and not the empty string. */
  predicate Truthy(replacements: map<string, string>, key: string)
  {
    key in replacements && replacements[key] != ""
  }

  /** The text a placeholder `%key%` becomes. */
  function Substitute(replacements: map<string, string>, key: string): string
  {
    if Truthy(replacements, key) then replacements[key] else "%" + key + "%"
  }

  /** A '%' at the front of `t` opens a match: the run of word characters after it ends at another '%'. */
  predicate OpensMatch(t: string)
  {
    t != [] && t[0] == '%' && 1 + WordRun(t[1..]) < |t| && t[1 + WordRun(t[1..])] == '%'
  }

  /**
   * `template.replace(/%(\w*)%/g, ...)`: a match at the front is substituted
   * and the scan resumes after it; otherwise one character is kept as it is
   * and the scan resumes one character further on.
   */
  function Render(template: string, replacements: map<string, string>): string
    decreases |template|
  {
    if template == [] then []
    else if OpensMatch(template) then
      var n := WordRun(template[1..]);
      Substitute(replacements, template[1..1 + n]) + Render(template[n + 2..], replacements)
    else [template[0]] + Render(template[1..], replacements)
  }

  /** A placeholder is replaced by its truthy value, or kept; the rest of the template is rendered after it. */
  lemma {:induction false} RenderPlaceholder(key: string, rest: string, replacements: map<string, string>)
    requires IsWord(key)
    ensures Render("%" + key + "%" + rest, replacements) == Substitute(replacements, key) + Render(rest, replacements)
  {
    var t := "%" + key + "%" + rest;
    WordRunOfWord(key, "%" + rest);
    assert t[1..] == key + ("%" + rest);
    assert t[1..1 + |key|] == key;
    assert t[|key| + 2..] == rest;
  }

  lemma {:induction false} WordRunOfWord(w: string, rest: string)
    requires IsWord(w)
    requires rest != [] && !IsWordChar(rest[0])
    ensures WordRun(w + rest) == |w|
    decreases |w|
  {
    if w != [] {
      assert (w + rest)[0] == w[0];
      assert (w + rest)[1..] == w[1..] + rest;
      WordRunOfWord(w[1..], rest);
    }
  }

  /** Text without a '%' is left as it is. */
  lemma {:induction false} RenderPlainText(template: string, replacements: map<string, string>)
    requires '%' !in template
    ensures Render(template, replacements) == template
    decreases |template|
  {
    if template != [] {
      assert template[0] != '%';
      assert !OpensMatch(template);
      RenderPlainText(template[1..], replacements);
    }
  }

  /** Rendering text without a '%' in front of a template renders the template alone after it. */
  lemma {:induction false} RenderAfterPlainText(text: string, template: string, replacements: map<string, string>)
    requires '%' !in text
    ensures Render(text + template, replacements) == text + Render(template, replacements)
    decreases |text|
  {
    if text != [] {
      var t := text + template;
      assert t[0] == text[0] != '%';
      assert !OpensMatch(t);
      assert t[1..] == text[1..] + template;
      assert Render(t, replacements) == [t[0]] + Render(t[1..], replacements);
      assert '%' !in text[1..];
      RenderAfterPlainText(text[1..], template, replacements);
      assert text == [text[0]] + text[1..];
    } else {
      assert text + template == template;
    }
  }

  /** Every value is falsy or the placeholder of its own key. */
  predicate KeepsPlaceholders(replacements: map<string, string>)
  {
    forall key :: key in replacements ==> replacements[key] == "" || replacements[key] == "%" + key + "%"
  }

  /** Such replacements turn every placeholder back into itself. */
  lemma SubstituteKeeps(replacements: map<string, string>, key: string)
    requires KeepsPlaceholders(replacements)
    ensures Substitute(replacements, key) == "%" + key + "%"
  {
    if key in replacements {
      assert replacements[key] == "" || replacements[key] == "%" + key + "%";
    }
  }

  /** A match at the front of the template spans the placeholder of the word it encloses. */
  lemma MatchSpan(template: string)
    requires OpensMatch(template)
    ensures var n := WordRun(template[1..]); template[..n + 2] == "%" + template[1..1 + n] + "%"
  {
  }

  /** Where the scan of Render resumes after the front of `template`. */
  function Resume(template: string): (k: nat)
    requires template != []
    ensures 0 < k <= |template|
    ensures OpensMatch(template) ==> k == WordRun(template[1..]) + 2
    ensures !OpensMatch(template) ==> k == 1
  {
    if OpensMatch(template) then WordRun(template[1..]) + 2 else 1
  }

  /** One step of RenderNeutral: a template whose rest after the front renders as itself renders as itself. */
  lemma NeutralStep(template: string, replacements: map<string, string>)
    requires KeepsPlaceholders(replacements) && template != []
    requires Render(template[Resume(template)..], replacements) == template[Resume(template)..]
    ensures Render(template, replacements) == template
  {
    if OpensMatch(template) {
      MatchNeutral(template, replacements);
    } else {
      KeptNeutral(template, replacements);
    }
  }

  lemma KeptNeutral(template: string, replacements: map<string, string>)
    requires template != [] && !OpensMatch(template)
    requires Render(template[1..], replacements) == template[1..]
    ensures Render(template, replacements) == template
  {
    calc {
      Render(template, replacements);
      [template[0]] + Render(template[1..], replacements);
      [template[0]] + template[1..];
      template;
    }
  }

  lemma MatchNeutral(template: string, replacements: map<string, string>)
    requires KeepsPlaceholders(replacements) && OpensMatch(template)
    requires var n := WordRun(template[1..]); Render(template[n + 2..], replacements) == template[n + 2..]
    ensures Render(template, replacements) == template
  {
    var n := WordRun(template[1..]);
    var key := template[1..1 + n];
    SubstituteKeeps(replacements, key);
    MatchSpan(template);
    calc {
      Render(template, replacements);
      Substitute(replacements, key) + Render(template[n + 2..], replacements);
      template[..n + 2] + template[n + 2..];
      template;
    }
  }

  /**
   * Replacements whose values are all falsy or the placeholder itself leave
   * every template as it was; in particular, no replacements at all.
   */
  lemma {:induction false} RenderNeutral(template: string, replacements: map<string, string>)
    requires KeepsPlaceholders(replacements)
    ensures Render(template, replacements) == template
    decreases |template|
  {
    if template != [] {
      RenderNeutral(template[Resume(template)..], replacements);
      NeutralStep(template, replacements);
    }
  }

  /**
   * The inserted text is not scanned again: whatever the value holds
   * (placeholders included), it appears in the output as it is.
   */
  lemma {:induction false} ReplacementNotRescanned(key: string, rest: string, replacements: map<string, string>)
    requires IsWord(key) && Truthy(replacements, key)
    requires '%' !in rest
    ensures Render("%" + key + "%" + rest, replacements) == replacements[key] + rest
  {
    RenderPlaceholder(key, rest, replacements);
    RenderPlainText(rest, replacements);
  }

  lemma NoPercentInWord(w: string)
    requires IsWord(w)
    ensures '%' !in w
  {
    forall k | 0 <= k < |w| ensures w[k] != '%' {
      assert IsWordChar(w[k]);
    }
  }

  /**
   * After a placeholder that stays, its closing '%' cannot open another: in
   * `%a%b%...` only `%a%` is a match, so `b` is kept as written whatever its
   * replacement, and the scan goes on at the last '%' shown.
   */
  lemma ClosingPercentConsumed(a: string, b: string, rest: string, replacements: map<string, string>)
    requires IsWord(a) && IsWord(b) && !Truthy(replacements, a)
    ensures Render("%" + a + "%" + (b + ("%" + rest)), replacements) == "%" + a + "%" + (b + Render("%" + rest, replacements))
  {
    RenderPlaceholder(a, b + ("%" + rest), replacements);
    NoPercentInWord(b);
    RenderAfterPlainText(b, "%" + rest, replacements);
  }
}
