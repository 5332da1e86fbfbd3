/** The course sidebar (components/lesson-sidebar.tsx): which modules are
    expanded, each module's completed count, and which lesson link is
    active. */
module LessonSidebar {
  import opened Types
  import opened SeqUtil
  import opened LessonContent
  import Dashboard
  import ProgressStore

  /** `toggleModule`'s update: drop every occurrence of the id when it is
      present, otherwise append it. Membership flips and no other id is
      touched. */
  function Toggle(expanded: seq<string>, moduleId: string): (r: seq<string>)
    ensures moduleId in r <==> moduleId !in expanded
    ensures forall x :: x != moduleId ==> multiset(r)[x] == multiset(expanded)[x]
  {
    if moduleId in expanded then RemoveAll(expanded, moduleId) else expanded + [moduleId]
  }

  /** Expanding adds the module at the end; collapsing keeps the other
      modules in their order. */
  lemma ToggleOrder(expanded: seq<string>, moduleId: string)
    ensures moduleId !in expanded ==> Toggle(expanded, moduleId) == expanded + [moduleId]
    ensures moduleId in expanded ==> IsSubseq(Toggle(expanded, moduleId), expanded)
  {
    RemoveAllKeepsOrder(expanded, moduleId);
  }

  /** Expanding then collapsing a module restores the list exactly. */
  lemma ToggleTwiceRestores(expanded: seq<string>, moduleId: string)
    requires moduleId !in expanded
    ensures Toggle(Toggle(expanded, moduleId), moduleId) == expanded
  {
    RemoveAllAppended(expanded, moduleId);
  }

  /** Removing an id from a list that only has it at the end. */
  lemma {:induction false} RemoveAllAppended(xs: seq<string>, x: string)
    requires x !in xs
    ensures RemoveAll(xs + [x], x) == xs
  {
    if xs == [] {
      assert RemoveAll([x], x) == [] by {
        assert [x][1..] == [];
      }
    } else {
      assert (xs + [x])[1..] == xs[1..] + [x];
      RemoveAllAppended(xs[1..], x);
    }
  }

  /** The sidebar's expanded-module list. */
  class Sidebar {
    var expandedModules: seq<string>

    /** The first module starts expanded. */
    constructor ()
      ensures expandedModules == ["module-1"]
      ensures IsExpanded("module-1")
    {
      expandedModules := ["module-1"];
    }

    predicate IsExpanded(moduleId: string)
      reads this
    {
      moduleId in expandedModules
    }

    /** A click on a module header flips that module and no other. */
    method ToggleModule(moduleId: string)
      modifies this
      ensures expandedModules == Toggle(old(expandedModules), moduleId)
      ensures IsExpanded(moduleId) <==> !old(IsExpanded(moduleId))
    {
      expandedModules := Toggle(expandedModules, moduleId);
    }
  }

  /** A module header's completed count, read from the store. */
  function CompletedCount(store: ProgressStore.Store, m: CourseModule): (n: nat)
    reads store
    ensures n == multiset(Dashboard.CompletedFlags(m.lessons, store.completedLessons))[true]
    ensures n <= |m.lessons|
    ensures n == |m.lessons| <==> forall k :: 0 <= k < |m.lessons| ==> store.IsLessonCompleted(m.lessons[k].id)
  {
    Dashboard.CompletedCount(m.lessons, store.completedLessons)
  }

  /** A lesson link is active when the page address is that lesson's. */
  predicate IsActive(pathname: string, lessonId: string) {
    pathname == LessonHref(lessonId)
  }

  /** One address makes at most one lesson id active. */
  lemma ActiveUnique(pathname: string, a: string, b: string)
    ensures IsActive(pathname, a) && IsActive(pathname, b) ==> a == b
    ensures IsActive(LessonHref(a), a)
  {
    LessonHrefInjective(a, b);
  }
}
