/**
 * The prompt template unit: one named fragment of prompt text with an
 * optional explicit order, optional prefix and suffix lines and an enabled
 * flag (proteas/unit.py).
 *
 * Only `enabled` ever changes in place; every other field is fixed when the
 * unit is created, and the copy operations build a new unit instead.
 */
module Unit {
  import opened Wrappers
  import opened Text
  import opened SafeTemplate

  class PromptTemplateUnit {
    const name: string
    const content: string
    const order: Option<int>
    const prefix: Option<string>
    const suffix: Option<string>
    var enabled: bool

    constructor (name: string, content: string := "", order: Option<int> := None,
                 prefix: Option<string> := None, suffix: Option<string> := None,
                 enabled: bool := true)
      ensures this.name == name && this.content == content && this.order == order
      ensures this.prefix == prefix && this.suffix == suffix && this.enabled == enabled
    {
      this.name := name;
      this.content := content;
      this.order := order;
      this.prefix := prefix;
      this.suffix := suffix;
      this.enabled := enabled;
    }

    /** The content after placeholder substitution; an empty mapping skips it. */
    function Body(substitutions: map<string, string>): (b: string)
      ensures |substitutions| == 0 ==> b == content
      ensures '$' !in content ==> b == content
    {
      if |substitutions| == 0 then content
      else
        if '$' !in content then NoDollarUnchanged(content, substitutions); SafeSubstitute(content, substitutions)
        else SafeSubstitute(content, substitutions)
    }

    /**
     * `render(**kwargs)`: nothing when disabled; otherwise the present parts
     * among prefix, substituted content and suffix, one per line. The content
     * part is there whenever the content is non-empty, even if substitution
     * leaves it empty.
     */
    function Render(substitutions: map<string, string>): (r: string)
      reads this
      ensures !enabled ==> r == ""
      ensures enabled && !Present(prefix) && content == "" && !Present(suffix) ==> r == ""
      ensures enabled && !Present(prefix) && content != "" && !Present(suffix) ==> r == Body(substitutions)
      ensures enabled && Present(prefix) && content == "" && !Present(suffix) ==> r == prefix.value
      ensures enabled && !Present(prefix) && content == "" && Present(suffix) ==> r == suffix.value
      ensures enabled && Present(prefix) && content != "" && !Present(suffix)
              ==> r == prefix.value + "\n" + Body(substitutions)
      ensures enabled && !Present(prefix) && content != "" && Present(suffix)
              ==> r == Body(substitutions) + "\n" + suffix.value
      ensures enabled && Present(prefix) && content == "" && Present(suffix)
              ==> r == prefix.value + "\n" + suffix.value
      ensures enabled && Present(prefix) && content != "" && Present(suffix)
              ==> r == prefix.value + "\n" + Body(substitutions) + "\n" + suffix.value
    {
      if !enabled then ""
      else
        var withPrefix := if Present(prefix) then [prefix.value] else [];
        var withContent := if content != "" then withPrefix + [Body(substitutions)] else withPrefix;
        var parts := if Present(suffix) then withContent + [suffix.value] else withContent;
        JoinPair("\n", prefix.GetOr(""), Body(substitutions));
        JoinPair("\n", Body(substitutions), suffix.GetOr(""));
        JoinPair("\n", prefix.GetOr(""), suffix.GetOr(""));
        JoinTriple("\n", prefix.GetOr(""), Body(substitutions), suffix.GetOr(""));
        assert [prefix.GetOr("")] + [Body(substitutions)] + [suffix.GetOr("")]
            == [prefix.GetOr(""), Body(substitutions), suffix.GetOr("")];
        Join("\n", parts)
    }

    /** `enable()`: turns the unit on and hands back the same object. */
    method Enable() returns (r: PromptTemplateUnit)
      modifies this
      ensures r == this && enabled
    {
      enabled := true;
      r := this;
    }

    /** `disable()`: turns the unit off and hands back the same object. */
    method Disable() returns (r: PromptTemplateUnit)
      modifies this
      ensures r == this && !enabled
    {
      enabled := false;
      r := this;
    }

    /** `with_content(c)`: a new unit that differs from this one only in its content. */
    method WithContent(content: string) returns (u: PromptTemplateUnit)
      ensures fresh(u)
      ensures u.content == content
      ensures u.name == name && u.order == order && u.prefix == prefix
      ensures u.suffix == suffix && u.enabled == enabled
    {
      u := new PromptTemplateUnit(name, content, order, prefix, suffix, enabled);
    }

    /** `with_order(o)`: a new unit that differs from this one only in its order. */
    method WithOrder(order: Option<int>) returns (u: PromptTemplateUnit)
      ensures fresh(u)
      ensures u.order == order
      ensures u.name == name && u.content == content && u.prefix == prefix
      ensures u.suffix == suffix && u.enabled == enabled
    {
      u := new PromptTemplateUnit(name, content, order, prefix, suffix, enabled);
    }

    /** `order=<n>`, or `order=auto` when no order is set. */
    function OrderText(): (s: string)
      ensures order.Some? ==> s == "order=" + IntToString(order.value)
      ensures order.None? ==> s == "order=auto"
    {
      match order
      case Some(n) => "order=" + IntToString(n)
      case None => "order=auto"
    }

    /** The status and the closing parenthesis: `, enabled)` or `, disabled)`. */
    function StatusEnding(): (s: string)
      reads this
    {
      if enabled then ", enabled)" else ", disabled)"
    }

    /** `__str__`: `PromptTemplateUnit(name=<repr>, order=<n>|order=auto, enabled|disabled)`. */
    function Str(): string
      reads this
    {
      "PromptTemplateUnit(name=" + Repr(name) + ", " + OrderText() + StatusEnding()
    }
  }

  // -------------------------------------------------------------------
  // What the textual summary shows.

  /** The summary names the unit. */
  lemma StrShowsName(u: PromptTemplateUnit)
    ensures Contains(u.Str(), Repr(u.name))
  {
    var head := "PromptTemplateUnit(name=";
    var tail := ", " + u.OrderText() + u.StatusEnding();
    assert u.Str() == head + Repr(u.name) + tail;
    ContainsMiddle(head, Repr(u.name), tail);
  }

  /** A name of plain characters appears in the summary between single quotes. */
  lemma StrShowsPlainName(u: PromptTemplateUnit)
    requires forall i :: 0 <= i < |u.name| ==> PlainChar(u.name[i])
    ensures Contains(u.Str(), "'" + u.name + "'")
  {
    ReprOfPlain(u.name);
    StrShowsName(u);
  }

  /** The summary shows `order=<n>` for a set order and `order=auto` otherwise. */
  lemma StrShowsOrder(u: PromptTemplateUnit)
    ensures u.order.Some? ==> Contains(u.Str(), "order=" + IntToString(u.order.value))
    ensures u.order.None? ==> Contains(u.Str(), "order=auto")
  {
    var head := "PromptTemplateUnit(name=" + Repr(u.name) + ", ";
    var tail := u.StatusEnding();
    assert u.Str() == head + u.OrderText() + tail;
    ContainsMiddle(head, u.OrderText(), tail);
  }

  /** Neither status ending is an ending of the other. */
  lemma StatusEndingsDiffer()
    ensures ", disabled)"[|", disabled)"| - |", enabled)"|..] != ", enabled)"
  {
    assert ", disabled)"[1] != ", enabled)"[0];
  }

  /** The summary ends in `, enabled)` exactly when the unit is enabled, and in `, disabled)` otherwise. */
  lemma StrShowsStatus(u: PromptTemplateUnit)
    ensures u.enabled <==> EndsWith(u.Str(), ", enabled)")
    ensures !u.enabled <==> EndsWith(u.Str(), ", disabled)")
  {
    var head := "PromptTemplateUnit(name=" + Repr(u.name) + ", " + u.OrderText();
    var on, off := ", enabled)", ", disabled)";
    var str := u.Str();
    assert str == head + u.StatusEnding();
    StatusEndingsDiffer();
    if u.enabled {
      EndsWithAppended(head, on);
      if EndsWith(str, off) {
        EndOfEnding(head, on, off);
      }
    } else {
      EndsWithAppended(head, off);
      if EndsWith(str, on) {
        EndingOfEnd(head, off, on);
      }
    }
  }
}
