/**
 * The application's route builder: a path prefix that grows as groups of
 * routes are added, and the list of groups added so far, each carrying the
 * builder's prefix in front of its own.
 */
module Routes {
  import opened Wrappers

  datatype Verb = Get | Post

  datatype Handler = Handler(verb: Verb, uri: string)

  /**
   * A group of handlers under an optional common prefix, as the web
   * framework's `Routes` holds them; setting its prefix replaces the old one.
   */
  datatype RouteGroup = RouteGroup(prefix: Option<string>, handlers: seq<Handler>) {
    function WithPrefix(p: string): (g: RouteGroup)
      ensures g.prefix == Some(p) && g.handlers == handlers
    {
      this.(prefix := Some(p))
    }

    /** The path each handler answers on: the prefix, if any, then its own uri. */
    function Paths(): (paths: seq<string>)
      ensures |paths| == |handlers|
      ensures forall i :: 0 <= i < |handlers| ==> paths[i] == prefix.GetOr("") + handlers[i].uri
    {
      seq(|handlers|, i requires 0 <= i < |handlers| => prefix.GetOr("") + handlers[i].uri)
    }
  }

  /** The prefix `add_route` gives a group: the builder's prefix followed by the group's own (or nothing). */
  function ComposedPrefix(own: Option<string>, group: Option<string>): (r: Option<string>)
    ensures own.None? ==> r == group
    ensures own.Some? ==> r.Some? && own.value <= r.value && r.value[|own.value|..] == group.GetOr("")
  {
    if own.Some? then Some(own.value + group.GetOr("")) else group
  }

  /** The group as the builder stores it. */
  function Prefixed(own: Option<string>, routes: RouteGroup): (g: RouteGroup)
    ensures g.handlers == routes.handlers
    ensures own.None? ==> g == routes
    ensures own.Some? ==> g.prefix == Some(own.value + routes.prefix.GetOr(""))
  {
    var p := ComposedPrefix(own, routes.prefix);
    if p.Some? then routes.WithPrefix(p.value) else routes
  }

  class ExtendedAppRoutes {
    var prefix: Option<string>
    /** The groups added so far, in call order. */
    var groups: seq<RouteGroup>

    /** `empty`: no prefix and no routes. */
    constructor Empty()
      ensures prefix.None? && groups == []
    {
      prefix, groups := None, [];
    }

    /** `prefix`: append to the current prefix, or start one. */
    method Prefix(p: string)
      modifies this
      ensures old(prefix).None? ==> prefix == Some(p)
      ensures old(prefix).Some? ==> prefix == Some(old(prefix).value + p)
      ensures groups == old(groups)
    {
      match prefix
      case None =>
        prefix := Some(p);
      case Some(oldPrefix) =>
        var grown := oldPrefix;
        grown := grown + p;
        prefix := Some(grown);
    }

    /** `reset_prefix`. */
    method ResetPrefix()
      modifies this
      ensures prefix.None? && groups == old(groups)
    {
      prefix := None;
    }

    /** `add_route`: store the group under the composed prefix; the builder's own prefix is kept. */
    method AddRoute(routes: RouteGroup)
      modifies this
      ensures prefix == old(prefix)
      ensures groups == old(groups) + [Prefixed(old(prefix), routes)]
    {
      var routesPrefix: Option<string>;
      if prefix.Some? {
        var p := prefix.value;
        var own := routes.prefix.GetOr("");
        p := p + own;
        routesPrefix := Some(p);
      } else {
        routesPrefix := routes.prefix;
      }
      var stored := routes;
      if routesPrefix.Some? {
        stored := stored.WithPrefix(routesPrefix.value);
      }
      groups := groups + [stored];
    }

    /** The conversion into the framework's routes: the groups, in order. */
    function Into(): (r: seq<RouteGroup>)
      reads this
      ensures |r| == |groups| && forall i :: 0 <= i < |r| ==> r[i] == groups[i]
    {
      groups
    }
  }

  /** Two prefixes in a row accumulate: `prefix(a).prefix(b)` stores `a + b`. */
  method PrefixTwice(a: string, b: string) returns (p: Option<string>)
    ensures p == Some(a + b)
  {
    var builder := new ExtendedAppRoutes.Empty();
    builder.Prefix(a);
    builder.Prefix(b);
    p := builder.prefix;
  }

  /** A group added after `reset_prefix` keeps exactly its own prefix. */
  lemma ResetThenAddKeepsGroup(routes: RouteGroup)
    ensures Prefixed(None, routes) == routes
  {
  }

  /** A group without its own prefix gets the builder's prefix unchanged. */
  lemma GroupWithoutPrefix(own: string, handlers: seq<Handler>)
    ensures Prefixed(Some(own), RouteGroup(None, handlers)) == RouteGroup(Some(own), handlers)
  {
    assert own + "" == own;
  }

  /** Composition is associative: adding prefix `b` to the builder, then a group, nests as expected. */
  lemma ComposedPrefixNests(a: string, b: string, group: Option<string>)
    ensures ComposedPrefix(Some(a + b), group) == Some(a + ComposedPrefix(Some(b), group).value)
  {
    assert a + b + group.GetOr("") == a + (b + group.GetOr(""));
  }
}
