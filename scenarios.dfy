/** Whole-method examples of what compilation yields for typical interface methods. */
module Scenarios {
  import opened Wrappers
  import opened Reflection
  import opened Descriptors

  const User := Class("User", false)
  const Long := Class("long", false)
  const CallBackClass := Class("CallBack", true)

  /** A last parameter declared directly as CallBack<T> is its own supertype. */
  function DirectCallBack(t: JType): JType {
    t
  }

  function Get(url: string): MethodAnnotation {
    Marked("GET", "GET", Some(url))
  }

  lemma FlattenThree(a: seq<ParamAnnotation>, b: seq<ParamAnnotation>, c: seq<ParamAnnotation>)
    ensures Flatten([a, b, c]) == a + b + c
  {
    var s := [a, b, c];
    assert s[..2] == [a, b] && s[..2][..1] == [a] && [a][..0] == [];
    assert Flatten([a]) == a;
  }

  lemma FlattenTwo(a: seq<ParamAnnotation>, b: seq<ParamAnnotation>)
    ensures Flatten([a, b]) == a + b
  {
    assert [a, b][..1] == [a] && [a][..0] == [];
    assert Flatten([a]) == a;
  }

  /** @GET("/users/{id}") void getUser(@Path("id") long id, CallBack<User> cb) */
  lemma GetUserById()
    ensures Compile(MethodSig("UserService", "getUser", [Get("/users/{id}")],
                              [Long, Parameterized(CallBackClass, [User])],
                              [[Path("id")], []]), DirectCallBack)
         == Success(Descriptor(Some("GET"), Some("/users/{id}"), Some(User), [Some(Path("id")), None]))
  {
    var m := MethodSig("UserService", "getUser", [Get("/users/{id}")],
                       [Long, Parameterized(CallBackClass, [User])],
                       [[Path("id")], []]);
    FlattenTwo([Path("id")], []);
    assert [Path("id")] + [] == [Path("id")];
    assert DistinctNames([Path("id")]);
    CompileSucceedsIff(m, DirectCallBack);
    CompileDescriptor(m, DirectCallBack);
    var d := Compile(m, DirectCallBack).value;
    assert d.methodAnnotations[0] == Some(Path("id")) && d.methodAnnotations[1] == None;
    assert d.methodAnnotations == [Some(Path("id")), None];
  }

  /** @POST("/users") void create(@Body User body, @Header("Auth") String token, CallBack<Void> cb) */
  lemma PostUserRoles()
    ensures ParamRoles([[Body], [Header("Auth")], []]) == Success([Some(Body), Some(Header("Auth")), None])
  {
    FlattenThree([Body], [Header("Auth")], []);
    var anns := [Body, Header("Auth")];
    assert [Body] + [Header("Auth")] + [] == anns;
    assert DistinctNames(anns) by {
      assert !Clash(anns[0], anns[1]);
    }
    var r := ParamRoles([[Body], [Header("Auth")], []]).value;
    assert r[0] == Some(Body) && r[1] == Some(Header("Auth")) && r[2] == None;
    assert r == [Some(Body), Some(Header("Auth")), None];
  }

  /** Two @Query("sort") parameters: the second one throws. */
  lemma DuplicateQueryRejected()
    ensures ParamRoles([[Query("sort")], [Query("sort")], []])
         == Failure(IllegalArgument("Query name should not be duplicated"))
  {
    var anns := [Query("sort"), Query("sort")];
    var slots := [[Query("sort")], [Query("sort")], []];
    FlattenThree([Query("sort")], [Query("sort")], []);
    assert Flatten(slots) == anns;
    assert HasEarlierTwin(anns, 1) by { assert Clash(anns[0], anns[1]); }
    CheckNamesFirstDuplicate(anns, 1);
  }

  /** The same name under @Path and @Query does not clash. */
  lemma SameNameAcrossRolesAccepted()
    ensures ParamRoles([[Path("sort")], [Query("sort")], []]).Success?
  {
    var slots := [[Path("sort")], [Query("sort")], []];
    FlattenThree([Path("sort")], [Query("sort")], []);
    var anns := [Path("sort"), Query("sort")];
    assert Flatten(slots) == anns;
    assert anns[..1] == [Path("sort")] && [Path("sort")][..0] == [];
  }

  /** A callback declared as CallBack<? extends User> resolves to User. */
  lemma WildcardResolvesToUpperBound()
    ensures ResponseType([Parameterized(CallBackClass, [Wildcard([User])])], DirectCallBack) == Success(Some(User))
  {
  }
}
