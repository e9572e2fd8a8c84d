/**
 * `ClassDependencyAnalyzer`: which project classes a class uses through the declared types of
 * its fields, constructor parameters, method parameters and method return types.
 *
 * The JavaParser syntax tree is replaced by a small datatype that keeps what the analyzer
 * looks at: class/interface types with their type arguments and qualifying scope, and the
 * type kinds it does not descend into (arrays, wildcards, primitives, `void`, ...).
 */
module ClassDependencyAnalyzer {
  import opened Wrappers
  import opened JavaString

  /** A declared type. Only `ClassType` (JavaParser's `ClassOrInterfaceType`) is inspected. */
  datatype Type =
    | ClassType(name: string, args: seq<Type>, scope: Option<Type>)
    | ArrayType(component: Type)
    | WildcardType(bound: Option<Type>)
    | OtherType

  /**
   * A member of a class body, as far as the analyzer and `findAll` read it. `decls` holds the
   * outermost class and interface declarations written inside the member, in document order:
   * local classes in a method, constructor or initializer body, member classes of anonymous
   * classes in a field initializer or body, and classes inside a nested enum, record or
   * annotation declaration (an `OtherMember`).
   */
  datatype Member =
    | Field(commonType: Type, decls: seq<ClassDecl>)
    | Constructor(parameters: seq<Type>, decls: seq<ClassDecl>)
    | Method(parameters: seq<Type>, returnType: Option<Type>, decls: seq<ClassDecl>)
    | NestedClass(decl: ClassDecl)
    | OtherMember(decls: seq<ClassDecl>)

  /** A class or interface declaration. */
  datatype ClassDecl = ClassDecl(name: string, members: seq<Member>)

  /**
   * A compilation unit, as `findAll` sees it: its outermost class and interface declarations
   * in document order. These are the top-level ones and those inside a top-level enum, record
   * or annotation declaration, which is not itself a class or interface declaration.
   */
  datatype CompilationUnit = CompilationUnit(types: seq<ClassDecl>)

  // ===========================================================================
  // simpleName
  // ===========================================================================

  /** The text after the last `.` of a type name, or the whole name when it has no `.`. */
  function SimpleName(name: string): (r: string)
    ensures '.' !in r && |r| <= |name|
    ensures name == name[..|name| - |r|] + r
    ensures |r| < |name| ==> name[|name| - |r| - 1] == '.'
    ensures '.' !in name ==> r == name
  {
    var r := AfterLast(name, '.');
    assert name == name[..|name| - |r|] + r;
    r
  }

  // ===========================================================================
  // The names a type mentions
  // ===========================================================================

  /**
   * The simple names of all class/interface types in `t`: its own, and those in its type
   * arguments and in its qualifying scope, searched recursively. Arrays and wildcards are
   * not class/interface types and are not searched.
   */
  function ClassNames(t: Type): set<string>
    decreases t, 1
  {
    match t
    case ClassType(name, args, scope) =>
      {SimpleName(name)} + NamesIn(args) + (if scope.Some? then ClassNames(scope.value) else {})
    case _ => {}
  }

  /** The class names mentioned by any of the types in `ts`. */
  function NamesIn(ts: seq<Type>): set<string>
    decreases ts, 0
  {
    if ts == [] then {} else NamesIn(ts[..|ts| - 1]) + ClassNames(ts[|ts| - 1])
  }

  /** The names in `names` that count as used: project classes other than the class itself. */
  function ProjectNames(names: set<string>, project: set<string>, self: string): (r: set<string>)
    ensures r <= project && self !in r
    ensures forall n | n in names && n in project && n != self :: n in r
  {
    names * project - {self}
  }

  /** Collecting from two sources one after the other collects from their union. */
  lemma ProjectNamesUnion(a: set<string>, b: set<string>, project: set<string>, self: string)
    ensures ProjectNames(a + b, project, self) == ProjectNames(a, project, self) + ProjectNames(b, project, self)
  {
  }

  /** The class names in the types of the fields among `members`. */
  function FieldNames(members: seq<Member>): set<string>
    decreases |members|
  {
    if members == [] then {}
    else
      var m := members[|members| - 1];
      FieldNames(members[..|members| - 1]) + (if m.Field? then ClassNames(m.commonType) else {})
  }

  /** The class names in the parameter types of the constructors among `members`. */
  function ConstructorNames(members: seq<Member>): set<string>
    decreases |members|
  {
    if members == [] then {}
    else
      var m := members[|members| - 1];
      ConstructorNames(members[..|members| - 1]) + (if m.Constructor? then NamesIn(m.parameters) else {})
  }

  /** The class names in the parameter and return types of a method. */
  function SignatureNames(parameters: seq<Type>, returnType: Option<Type>): set<string> {
    NamesIn(parameters) + (if returnType.Some? then ClassNames(returnType.value) else {})
  }

  /** The class names in the parameter and return types of the methods among `members`. */
  function MethodNames(members: seq<Member>): set<string>
    decreases |members|
  {
    if members == [] then {}
    else
      var m := members[|members| - 1];
      MethodNames(members[..|members| - 1])
        + (if m.Method? then SignatureNames(m.parameters, m.returnType) else {})
  }

  /** What `findUsedProjectTypes` returns for `cls`. */
  function UsedProjectTypes(cls: ClassDecl, project: set<string>): set<string> {
    ProjectNames(FieldNames(cls.members) + ConstructorNames(cls.members) + MethodNames(cls.members),
                 project, cls.name)
  }

  // ===========================================================================
  // collectClassSimpleNames and findUsedProjectTypes
  // ===========================================================================

  /**
   * `collectClassSimpleNames`: adds to `out0` the used names of `t`, its own simple name first,
   * then those of its type arguments, then those of its scope.
   */
  method CollectClassSimpleNames(t: Type, project: set<string>, self: string, out0: set<string>)
    returns (out: set<string>)
    ensures out == out0 + ProjectNames(ClassNames(t), project, self)
    decreases t, 1
  {
    out := out0;
    if t.ClassType? {
      var simple := SimpleName(t.name);
      if simple != self && simple in project {
        out := out + {simple};
      }
      ghost var scoped := if t.scope.Some? then ClassNames(t.scope.value) else {};
      assert ClassNames(t) == {simple} + NamesIn(t.args) + scoped;
      assert out == out0 + ProjectNames({simple}, project, self);
      ProjectNamesUnion({simple}, NamesIn(t.args), project, self);
      ProjectNamesUnion({simple} + NamesIn(t.args), scoped, project, self);
      out := CollectAll(t.args, project, self, out);
      if t.scope.Some? {
        out := CollectClassSimpleNames(t.scope.value, project, self, out);
      }
    }
  }

  /** Adds the used names of every type in `ts`, in order. */
  method CollectAll(ts: seq<Type>, project: set<string>, self: string, out0: set<string>)
    returns (out: set<string>)
    ensures out == out0 + ProjectNames(NamesIn(ts), project, self)
    decreases ts, 0
  {
    out := out0;
    var i := 0;
    while i < |ts|
      invariant i <= |ts|
      invariant out == out0 + ProjectNames(NamesIn(ts[..i]), project, self)
    {
      assert ts[..i + 1][..i] == ts[..i];
      ProjectNamesUnion(NamesIn(ts[..i]), ClassNames(ts[i]), project, self);
      out := CollectClassSimpleNames(ts[i], project, self, out);
      i := i + 1;
    }
    assert ts[..i] == ts;
  }

  /**
   * `findUsedProjectTypes`: the project classes, other than `cls` itself, named by the
   * types of its fields, its constructors' parameters and its methods' parameters and
   * return types.
   */
  method FindUsedProjectTypes(cls: ClassDecl, project: set<string>) returns (used: set<string>)
    ensures used == UsedProjectTypes(cls, project)
    ensures used <= project && cls.name !in used
  {
    var self := cls.name;
    var members := cls.members;
    used := CollectFields(members, project, self, {});
    used := CollectConstructors(members, project, self, used);
    used := CollectMethods(members, project, self, used);
    ProjectNamesUnion(FieldNames(members), ConstructorNames(members), project, self);
    ProjectNamesUnion(FieldNames(members) + ConstructorNames(members), MethodNames(members), project, self);
  }

  /** The loop over the members that are fields, adding the names in each field's type. */
  method CollectFields(members: seq<Member>, project: set<string>, self: string, out0: set<string>)
    returns (out: set<string>)
    ensures out == out0 + ProjectNames(FieldNames(members), project, self)
  {
    out := out0;
    var i := 0;
    while i < |members|
      invariant i <= |members|
      invariant out == out0 + ProjectNames(FieldNames(members[..i]), project, self)
    {
      assert members[..i + 1][..i] == members[..i];
      if members[i].Field? {
        ProjectNamesUnion(FieldNames(members[..i]), ClassNames(members[i].commonType), project, self);
        out := CollectClassSimpleNames(members[i].commonType, project, self, out);
      } else {
        assert FieldNames(members[..i + 1]) == FieldNames(members[..i]);
      }
      i := i + 1;
    }
    assert members[..i] == members;
  }

  /** The loop over the constructors, adding the names in each parameter type. */
  method CollectConstructors(members: seq<Member>, project: set<string>, self: string, out0: set<string>)
    returns (out: set<string>)
    ensures out == out0 + ProjectNames(ConstructorNames(members), project, self)
  {
    out := out0;
    var i := 0;
    while i < |members|
      invariant i <= |members|
      invariant out == out0 + ProjectNames(ConstructorNames(members[..i]), project, self)
    {
      assert members[..i + 1][..i] == members[..i];
      if members[i].Constructor? {
        ProjectNamesUnion(ConstructorNames(members[..i]), NamesIn(members[i].parameters), project, self);
        out := CollectAll(members[i].parameters, project, self, out);
      } else {
        assert ConstructorNames(members[..i + 1]) == ConstructorNames(members[..i]);
      }
      i := i + 1;
    }
    assert members[..i] == members;
  }

  /** The loop over the methods, adding the names in each parameter type and in the return type. */
  method CollectMethods(members: seq<Member>, project: set<string>, self: string, out0: set<string>)
    returns (out: set<string>)
    ensures out == out0 + ProjectNames(MethodNames(members), project, self)
  {
    out := out0;
    var i := 0;
    while i < |members|
      invariant i <= |members|
      invariant out == out0 + ProjectNames(MethodNames(members[..i]), project, self)
    {
      assert members[..i + 1][..i] == members[..i];
      var m := members[i];
      if m.Method? {
        var parameters, returnType := m.parameters, m.returnType;
        MethodNamesStep(members, i, project, self);
        out := CollectAll(parameters, project, self, out);
        if returnType.Some? {
          out := CollectClassSimpleNames(returnType.value, project, self, out);
        }
      } else {
        assert MethodNames(members[..i + 1]) == MethodNames(members[..i]);
      }
      i := i + 1;
    }
    assert members[..i] == members;
  }

  /** One method's step of `CollectMethods`: its parameter names, then its return type's names. */
  lemma MethodNamesStep(members: seq<Member>, i: nat, project: set<string>, self: string)
    requires i < |members| && members[i].Method?
    ensures ProjectNames(MethodNames(members[..i + 1]), project, self)
      == ProjectNames(MethodNames(members[..i]), project, self)
         + ProjectNames(NamesIn(members[i].parameters), project, self)
         + (if members[i].returnType.Some? then ProjectNames(ClassNames(members[i].returnType.value), project, self) else {})
  {
    var m := members[i];
    assert members[..i + 1][..i] == members[..i];
    ProjectNamesUnion(MethodNames(members[..i]), SignatureNames(m.parameters, m.returnType), project, self);
    var returned := if m.returnType.Some? then ClassNames(m.returnType.value) else {};
    ProjectNamesUnion(NamesIn(m.parameters), returned, project, self);
  }

  // ===========================================================================
  // Properties of the used types
  // ===========================================================================

  /** Every type in a list contributes all its names. */
  lemma {:induction false} NamesInHas(ts: seq<Type>, k: nat)
    requires k < |ts|
    ensures ClassNames(ts[k]) <= NamesIn(ts)
    decreases |ts|
  {
    if k < |ts| - 1 {
      NamesInHas(ts[..|ts| - 1], k);
    }
  }

  /** `List<Foo>` mentions `Foo`: type arguments are searched, however deeply nested. */
  lemma TypeArgumentsAreSearched(name: string, args: seq<Type>, scope: Option<Type>, k: nat)
    requires k < |args|
    ensures ClassNames(args[k]) <= ClassNames(ClassType(name, args, scope))
  {
    NamesInHas(args, k);
  }

  /** `Outer.Inner` mentions `Outer`: the qualifying scope is searched. */
  lemma ScopeIsSearched(name: string, args: seq<Type>, outer: Type)
    ensures ClassNames(outer) <= ClassNames(ClassType(name, args, Some(outer)))
  {
  }

  /** Arrays and wildcards are not class/interface types: nothing inside them is looked at. */
  lemma ArraysAndWildcardsMentionNothing(t: Type, bound: Option<Type>)
    ensures ClassNames(ArrayType(t)) == {} && ClassNames(WildcardType(bound)) == {}
  {
  }

  /** The field at index `k` contributes the names of its type. */
  lemma {:induction false} FieldNamesHas(members: seq<Member>, k: nat)
    requires k < |members| && members[k].Field?
    ensures ClassNames(members[k].commonType) <= FieldNames(members)
    decreases |members|
  {
    if k < |members| - 1 {
      FieldNamesHas(members[..|members| - 1], k);
    }
  }

  /** The constructor at index `k` contributes the names of its parameter types. */
  lemma {:induction false} ConstructorNamesHas(members: seq<Member>, k: nat)
    requires k < |members| && members[k].Constructor?
    ensures NamesIn(members[k].parameters) <= ConstructorNames(members)
    decreases |members|
  {
    if k < |members| - 1 {
      ConstructorNamesHas(members[..|members| - 1], k);
    }
  }

  /** The method at index `k` contributes the names of its parameter and return types. */
  lemma {:induction false} MethodNamesHas(members: seq<Member>, k: nat)
    requires k < |members| && members[k].Method?
    ensures SignatureNames(members[k].parameters, members[k].returnType) <= MethodNames(members)
    decreases |members|
  {
    if k < |members| - 1 {
      MethodNamesHas(members[..|members| - 1], k);
    }
  }

  /** `t` is the type of field `m`, a parameter type of constructor or method `m`, or the return type of method `m`. */
  predicate DeclaresType(m: Member, t: Type) {
    || (m.Field? && t == m.commonType)
    || (m.Constructor? && t in m.parameters)
    || (m.Method? && (t in m.parameters || m.returnType == Some(t)))
  }

  /**
   * A project class named by the type of a field (injected or plain), of a constructor or
   * method parameter, or of a method's return type, is used, unless it is the class itself.
   */
  lemma MemberTypesAreUsed(cls: ClassDecl, project: set<string>, k: nat, t: Type, n: string)
    requires k < |cls.members|
    requires DeclaresType(cls.members[k], t)
    requires n in ClassNames(t) && n in project && n != cls.name
    ensures n in UsedProjectTypes(cls, project)
  {
    var m := cls.members[k];
    if m.Field? {
      FieldNamesHas(cls.members, k);
    } else if m.Constructor? {
      var j :| 0 <= j < |m.parameters| && m.parameters[j] == t;
      NamesInHas(m.parameters, j);
      ConstructorNamesHas(cls.members, k);
    } else {
      if t in m.parameters {
        var j :| 0 <= j < |m.parameters| && m.parameters[j] == t;
        NamesInHas(m.parameters, j);
      }
      MethodNamesHas(cls.members, k);
    }
  }

  /** Only fields, constructors and methods are read: nested classes and other members add nothing. */
  predicate HasTypedMember(members: seq<Member>) {
    exists k | 0 <= k < |members| :: members[k].Field? || members[k].Constructor? || members[k].Method?
  }

  lemma {:induction false} UntypedMembersMentionNothing(members: seq<Member>)
    requires !HasTypedMember(members)
    ensures FieldNames(members) == {} && ConstructorNames(members) == {} && MethodNames(members) == {}
    decreases |members|
  {
    if members != [] {
      var init := members[..|members| - 1];
      assert !HasTypedMember(init) by {
        forall k | 0 <= k < |init|
          ensures !(init[k].Field? || init[k].Constructor? || init[k].Method?)
        {
          assert init[k] == members[k];
        }
      }
      UntypedMembersMentionNothing(init);
    }
  }

  /** A class without fields, constructors or methods (an empty class, say) uses nothing. */
  lemma NoTypedMembersUseNothing(cls: ClassDecl, project: set<string>)
    requires !HasTypedMember(cls.members)
    ensures UsedProjectTypes(cls, project) == {}
  {
    UntypedMembersMentionNothing(cls.members);
  }

  // ===========================================================================
  // getClassSimpleNamesInCu
  // ===========================================================================

  /** `d` and every class declared inside it, in document order (what `findAll` visits). */
  function DeclsOf(d: ClassDecl): (r: seq<ClassDecl>)
    ensures |r| > 0 && r[0] == d
    decreases d, 1
  {
    [d] + NestedDecls(d.members)
  }

  /** The class declarations, nested ones included, inside `members`. */
  function NestedDecls(members: seq<Member>): seq<ClassDecl>
    decreases members, 0
  {
    if members == [] then []
    else
      NestedDecls(members[..|members| - 1]) + MemberDecls(members[|members| - 1])
  }

  /** The declarations a member holds: a nested class with everything inside it, or those in its body. */
  function MemberDecls(m: Member): seq<ClassDecl>
    decreases m, 2
  {
    if m.NestedClass? then DeclsOf(m.decl) else AllDecls(m.decls)
  }

  /** The declarations `types`, each followed by everything declared inside it. */
  function AllDecls(types: seq<ClassDecl>): seq<ClassDecl>
    decreases types, 3
  {
    if types == [] then [] else AllDecls(types[..|types| - 1]) + DeclsOf(types[|types| - 1])
  }

  /**
   * `getClassSimpleNamesInCu`: the names of all class and interface declarations in the unit,
   * wherever they are declared. The outermost ones are always included.
   */
  function ClassSimpleNamesInCu(cu: CompilationUnit): (r: set<string>)
    ensures forall k | 0 <= k < |cu.types| :: cu.types[k].name in r
  {
    AllTopLevelIn(cu.types);
    set d | d in AllDecls(cu.types) :: d.name
  }

  lemma AllTopLevelIn(types: seq<ClassDecl>)
    ensures forall k | 0 <= k < |types| :: types[k] in AllDecls(types)
  {
    forall k | 0 <= k < |types|
      ensures types[k] in AllDecls(types)
    {
      AllDeclsHasTopLevel(types, k);
    }
  }

  lemma {:induction false} AllDeclsHasTopLevel(types: seq<ClassDecl>, k: nat)
    requires k < |types|
    ensures types[k] in AllDecls(types)
    decreases |types|
  {
    if k < |types| - 1 {
      AllDeclsHasTopLevel(types[..|types| - 1], k);
    } else {
      assert DeclsOf(types[k])[0] == types[k];
    }
  }

  lemma {:induction false} NestedDeclsHas(members: seq<Member>, k: nat)
    requires k < |members| && members[k].NestedClass?
    ensures members[k].decl in NestedDecls(members)
    decreases |members|
  {
    if k < |members| - 1 {
      NestedDeclsHas(members[..|members| - 1], k);
    } else {
      assert DeclsOf(members[k].decl)[0] == members[k].decl;
    }
  }

  lemma {:induction false} AllDeclsClosed(types: seq<ClassDecl>, d: ClassDecl, e: ClassDecl)
    requires d in AllDecls(types) && e in NestedDecls(d.members)
    ensures e in AllDecls(types)
    decreases types, 3
  {
    if types != [] {
      var init := types[..|types| - 1];
      if d in AllDecls(init) {
        AllDeclsClosed(init, d, e);
      } else {
        DeclsOfClosed(types[|types| - 1], d, e);
      }
    }
  }

  lemma {:induction false} DeclsOfClosed(top: ClassDecl, d: ClassDecl, e: ClassDecl)
    requires d in DeclsOf(top) && e in NestedDecls(d.members)
    ensures e in DeclsOf(top)
    decreases top, 1
  {
    if d != top {
      NestedDeclsClosed(top.members, d, e);
    }
  }

  lemma {:induction false} NestedDeclsClosed(members: seq<Member>, d: ClassDecl, e: ClassDecl)
    requires d in NestedDecls(members) && e in NestedDecls(d.members)
    ensures e in NestedDecls(members)
    decreases members, 0
  {
    if members != [] {
      var init := members[..|members| - 1];
      if d in NestedDecls(init) {
        NestedDeclsClosed(init, d, e);
      } else {
        MemberDeclsClosed(members[|members| - 1], d, e);
      }
    }
  }

  lemma {:induction false} MemberDeclsClosed(m: Member, d: ClassDecl, e: ClassDecl)
    requires d in MemberDecls(m) && e in NestedDecls(d.members)
    ensures e in MemberDecls(m)
    decreases m, 2
  {
    if m.NestedClass? {
      DeclsOfClosed(m.decl, d, e);
    } else {
      AllDeclsClosed(m.decls, d, e);
    }
  }

  /**
   * The names in the unit are those of its top-level declarations and, transitively, of
   * every class declared inside one of them.
   */
  lemma ClassSimpleNamesInCuHasNested(cu: CompilationUnit, d: ClassDecl, k: nat)
    requires d in AllDecls(cu.types) && k < |d.members| && d.members[k].NestedClass?
    ensures d.members[k].decl.name in ClassSimpleNamesInCu(cu)
  {
    NestedDeclsHas(d.members, k);
    AllDeclsClosed(cu.types, d, d.members[k].decl);
  }

  /** A class declared inside the body of a member (a local class, say) is visited as well. */
  lemma {:induction false} NestedDeclsHasBodyDecl(members: seq<Member>, k: nat, j: nat)
    requires k < |members| && !members[k].NestedClass? && j < |members[k].decls|
    ensures members[k].decls[j] in NestedDecls(members)
    decreases |members|
  {
    if k < |members| - 1 {
      NestedDeclsHasBodyDecl(members[..|members| - 1], k, j);
    } else {
      AllDeclsHasTopLevel(members[k].decls, j);
    }
  }

  /**
   * The names in the unit include those of classes declared inside member bodies: a local
   * class in a method is a project class like any other.
   */
  lemma ClassSimpleNamesInCuHasLocal(cu: CompilationUnit, d: ClassDecl, k: nat, j: nat)
    requires d in AllDecls(cu.types) && k < |d.members|
    requires !d.members[k].NestedClass? && j < |d.members[k].decls|
    ensures d.members[k].decls[j].name in ClassSimpleNamesInCu(cu)
  {
    NestedDeclsHasBodyDecl(d.members, k, j);
    AllDeclsClosed(cu.types, d, d.members[k].decls[j]);
  }
}
