/**
 * The split of the `<script setup>` statements in `transformScriptSetup`
 * (`src/core/transformScriptSetup.ts`): what stays at module level and what
 * becomes the body of `setup`.
 */
module SetupPartition {
  import opened Js
  import opened BabelAst

  /** `isAsyncImport`: a variable declaration whose first declarator is
      initialised by a `defineAsyncComponent(...)` call. */
  predicate IsAsyncImport(n: Node)
  {
    && n.VariableDeclaration?
    && |n.declarations| > 0
    && n.declarations[0].init.Some?
    && n.declarations[0].init.value.CallExpression?
    && !n.declarations[0].init.value.optional
    && n.declarations[0].init.value.callee.Identifier?
    && n.declarations[0].init.value.callee.name == "defineAsyncComponent"
  }

  /** The statements that stay at module level. */
  predicate IsHoisted(n: Node)
  {
    IsAsyncImport(n) || n.ImportDeclaration? || n.ExportNamedDeclaration? || StartsWith(Type(n), "TS")
  }

  /** The statements `partition` puts first, in order. */
  function Hoisted(body: seq<Node>): (r: seq<Node>)
    ensures forall n :: n in r ==> IsHoisted(n)
  {
    if |body| == 0 then []
    else
      var n := body[|body| - 1];
      Hoisted(body[..|body| - 1]) + (if IsHoisted(n) then [n] else [])
  }

  /** The statements `partition` puts second, in order: the setup body. */
  function SetupStatements(body: seq<Node>): (r: seq<Node>)
    ensures forall n :: n in r ==> !IsHoisted(n)
  {
    if |body| == 0 then []
    else
      var n := body[|body| - 1];
      SetupStatements(body[..|body| - 1]) + (if IsHoisted(n) then [] else [n])
  }

  /** `partition(body, IsHoisted)`. */
  function Partition(body: seq<Node>): (seq<Node>, seq<Node>)
  {
    (Hoisted(body), SetupStatements(body))
  }

  /** Every statement goes to exactly one side. */
  lemma {:induction false} PartitionIsPermutation(body: seq<Node>)
    ensures multiset(Hoisted(body)) + multiset(SetupStatements(body)) == multiset(body)
  {
    if |body| != 0 {
      var init, n := body[..|body| - 1], body[|body| - 1];
      PartitionIsPermutation(init);
      SplitSnoc(Hoisted(init), SetupStatements(init), init, n, IsHoisted(n));
      assert body == init + [n];
      if IsHoisted(n) {
        assert Hoisted(body) == Hoisted(init) + [n];
        assert SetupStatements(body) == SetupStatements(init);
      } else {
        assert Hoisted(body) == Hoisted(init);
        assert SetupStatements(body) == SetupStatements(init) + [n];
      }
    }
  }

  /** Both sides keep the relative order of the statements: partitioning a
      concatenation concatenates the partitions. */
  lemma PartitionConcat(a: seq<Node>, b: seq<Node>)
    ensures Hoisted(a + b) == Hoisted(a) + Hoisted(b)
    ensures SetupStatements(a + b) == SetupStatements(a) + SetupStatements(b)
  {
    HoistedConcat(a, b);
    SetupStatementsConcat(a, b);
  }

  lemma {:induction false} HoistedConcat(a: seq<Node>, b: seq<Node>)
    ensures Hoisted(a + b) == Hoisted(a) + Hoisted(b)
  {
    if |b| == 0 {
      assert a + b == a;
    } else {
      var b', n := b[..|b| - 1], b[|b| - 1];
      HoistedConcat(a, b');
      assert (a + b)[..|a + b| - 1] == a + b';
      assert (a + b)[|a + b| - 1] == n;
      var h: seq<Node> := if IsHoisted(n) then [n] else [];
      assert Hoisted(a + b) == Hoisted(a + b') + h;
      assert Hoisted(b) == Hoisted(b') + h;
      assert Hoisted(a) + Hoisted(b') + h == Hoisted(a) + (Hoisted(b') + h);
    }
  }

  lemma {:induction false} SetupStatementsConcat(a: seq<Node>, b: seq<Node>)
    ensures SetupStatements(a + b) == SetupStatements(a) + SetupStatements(b)
  {
    if |b| == 0 {
      assert a + b == a;
    } else {
      var b', n := b[..|b| - 1], b[|b| - 1];
      SetupStatementsConcat(a, b');
      assert (a + b)[..|a + b| - 1] == a + b';
      assert (a + b)[|a + b| - 1] == n;
      var t: seq<Node> := if IsHoisted(n) then [] else [n];
      assert SetupStatements(a + b) == SetupStatements(a + b') + t;
      assert SetupStatements(b) == SetupStatements(b') + t;
      assert SetupStatements(a) + SetupStatements(b') + t == SetupStatements(a) + (SetupStatements(b') + t);
    }
  }

  /** The hoisted statements are never default exports. */
  lemma HoistedNotDefaultExport(n: Node)
    ensures n.ExportDefaultDeclaration? ==> !IsHoisted(n)
  {
    if n.ExportDefaultDeclaration? {
      assert Type(n) == "ExportDefaultDeclaration";
      assert Type(n)[0] == 'E';
    }
  }
}
