/**
 * `formatName` of src/lib/format-name.ts: the container's first name, with
 * one leading "/" removed.
 */
module FormatName {
  import opened Wrappers
  import opened Docker

  /** `name.replace(/^\//, "")`: removes one "/" at the start, if there is one. */
  function StripLeadingSlash(name: string): (r: string)
    ensures |name| > 0 && name[0] == '/' ==> r == name[1..]
    ensures (|name| == 0 || name[0] != '/') ==> r == name
    ensures r == name[|name| - |r|..]
    ensures |name| - 1 <= |r| <= |name|
  {
    if |name| > 0 && name[0] == '/' then name[1..] else name
  }

  /** `formatName(container)`; `None` is `null`. */
  function FormatName(c: Container): (r: Option<string>)
    ensures r.None? <==> c.names == [] || c.names[0] == ""
    ensures r.Some? ==> r.value == StripLeadingSlash(c.names[0])
  {
    if |c.names| == 0 then None
    else
      var name := c.names[0];
      if name == "" then None else Some(StripLeadingSlash(name))
  }

  /** Only the first name is consulted. */
  lemma OnlyFirstNameMatters(c1: Container, c2: Container)
    requires |c1.names| > 0 && |c2.names| > 0 && c1.names[0] == c2.names[0]
    ensures FormatName(c1) == FormatName(c2)
  {
  }

  /**
   * The result is a suffix of the first name that is at most one character
   * shorter, and putting the "/" back gives the name the runtime reported.
   */
  lemma ResultIsSuffix(c: Container)
    requires FormatName(c).Some?
    ensures var name, r := c.names[0], FormatName(c).value;
      && name[|name| - |r|..] == r
      && (name == r || name == ['/'] + r)
  {
    var name := c.names[0];
    if name[0] == '/' {
      assert name == [name[0]] + name[1..];
    }
  }
}
