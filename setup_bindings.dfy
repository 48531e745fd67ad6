/**
 * The names `transformScriptSetup` (`src/core/transformScriptSetup.ts`) binds
 * for the template: the declared names, the ones `setup` returns, and the
 * declared names that provide its components and custom directives.
 */
module SetupBindings {
  import opened Js
  import opened Utils
  import opened BabelAst
  import opened Parsers

  /** `uniq([...decl(hoisted), ...decl(setupBody), ...decl(script)])`: every name
      declared at the top level of either program, once each. */
  function DeclaredNames(tc: Toolchain, hoisted: seq<Node>, setupBody: seq<Node>, script: seq<Node>): (r: seq<string>)
    ensures NoDuplicates(r)
    ensures forall x :: x in r <==> x in tc.declarations(hoisted) || x in tc.declarations(setupBody) || x in tc.declarations(script)
  {
    Dedup(tc.declarations(hoisted) + tc.declarations(setupBody) + tc.declarations(script))
  }

  /** The declared names the template uses, in declaration order. */
  function Returns(declared: seq<string>, used: seq<string>): (r: seq<string>)
    ensures forall x :: x in r <==> x in declared && x in used
    ensures NoDuplicates(declared) ==> NoDuplicates(r)
  {
    if |declared| == 0 then []
    else
      var init := declared[..|declared| - 1];
      var x := declared[|declared| - 1];
      assert declared == init + [x];
      var rest := Returns(init, used);
      if x in used then rest + [x] else rest
  }

  /** `xs.find(p)`. */
  function FindFirst(xs: seq<string>, p: string -> bool): (r: Option<string>)
    ensures r.Some? ==> r.value in xs && p(r.value)
    ensures r.None? <==> forall x :: x in xs ==> !p(x)
  {
    if |xs| == 0 then None
    else if p(xs[0]) then Some(xs[0])
    else
      var r := FindFirst(xs[1..], p);
      assert forall x :: x in xs ==> x == xs[0] || x in xs[1..];
      r
  }

  /** The first element `find` returns is preceded only by elements failing `p`. */
  lemma {:induction false} FindFirstIsFirst(xs: seq<string>, p: string -> bool, k: nat)
    requires k < |xs| && FindFirst(xs, p) == Some(xs[k])
    requires forall j :: 0 <= j < k ==> xs[j] != xs[k]
    ensures forall j :: 0 <= j < k ==> !p(xs[j])
  {
    if k > 0 {
      assert !p(xs[0]);
      FindFirstIsFirst(xs[1..], p, k - 1);
      assert forall j :: 1 <= j < k ==> xs[j] == xs[1..][j - 1];
    }
  }

  /** A template component tag resolved to a declared name: the name itself when
      declared, else the first declared name that pascal-cases to it. */
  function MatchComponent(declared: seq<string>, component: string): (r: Option<string>)
    ensures r.Some? ==> r.value in declared && (r.value == component || Pascalize(r.value) == component)
    ensures component in declared ==> r == Some(component)
    ensures r.None? <==> forall d :: d in declared ==> d != component && Pascalize(d) != component
  {
    var exact := FindFirst(declared, d => d == component);
    if exact.Some? then exact else FindFirst(declared, d => Pascalize(d) == component)
  }

  /** The matched components, in template order, unmatched ones dropped. */
  function MatchedComponents(declared: seq<string>, components: seq<string>): (r: seq<string>)
    ensures |r| <= |components|
    ensures forall x :: x in r ==> x in declared
    ensures forall k :: 0 <= k < |components| && MatchComponent(declared, components[k]).Some?
              ==> MatchComponent(declared, components[k]).value in r
  {
    if |components| == 0 then []
    else
      var init := components[..|components| - 1];
      var rest := MatchedComponents(declared, init);
      var m := MatchComponent(declared, components[|components| - 1]);
      assert forall k :: 0 <= k < |init| ==> components[k] == init[k];
      if m.Some? then rest + [m.value] else rest
  }

  /** A component name is emitted exactly when some template component resolves to it. */
  lemma {:induction false} MatchedComponentsExactly(declared: seq<string>, components: seq<string>, x: string)
    ensures x in MatchedComponents(declared, components)
        <==> exists k :: 0 <= k < |components| && MatchComponent(declared, components[k]) == Some(x)
  {
    if |components| != 0 {
      var init := components[..|components| - 1];
      MatchedComponentsExactly(declared, init, x);
      if x in MatchedComponents(declared, init) {
        var k :| 0 <= k < |init| && MatchComponent(declared, init[k]) == Some(x);
        assert components[k] == init[k];
      }
      if exists k :: 0 <= k < |components| && MatchComponent(declared, components[k]) == Some(x) {
        var k :| 0 <= k < |components| && MatchComponent(declared, components[k]) == Some(x);
        if k < |init| {
          assert init[k] == components[k];
        }
      }
    }
  }

  /** A custom directive bound to the declared name that provides it. */
  datatype DirectiveBinding = DirectiveBinding(identifier: string, directive: string)

  /** The name a `<script setup>` binding must have to provide directive `d`. */
  function DirectiveName(directive: string): string
  {
    "v" + Capitalize(directive)
  }

  /** The directives whose `v` + capitalised name is declared, in template order. */
  function MatchedDirectives(declared: seq<string>, directives: seq<string>): (r: seq<DirectiveBinding>)
    ensures |r| <= |directives|
    ensures forall b :: b in r ==> b.directive in directives && b.identifier == DirectiveName(b.directive) && b.identifier in declared
    ensures forall d :: d in directives && DirectiveName(d) in declared ==> DirectiveBinding(DirectiveName(d), d) in r
  {
    if |directives| == 0 then []
    else
      var init := directives[..|directives| - 1];
      var d := directives[|directives| - 1];
      assert directives == init + [d];
      var rest := MatchedDirectives(declared, init);
      if DirectiveName(d) in declared then rest + [DirectiveBinding(DirectiveName(d), d)] else rest
  }
}
