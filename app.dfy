/**
  The project list of the main screen (src/App.tsx): its state (the projects, the
  "new project" form and the modal flag) and the two handlers that change it,
  `handleAddProject` and `toggleTask`.
 */
module App {

  datatype Task = Task(id: int, titre: string, complete: bool)

  /**
    A JavaScript number produced by `Math.round` on a percentage: an integer, or `NaN`
    when the ratio was `0 / 0` (a project without tasks).
   */
  datatype Progression = Rounded(value: int) | NaN

  datatype Project = Project(
    id: int,
    nom: string,
    description: string,
    progression: Progression,
    dateLimite: string,
    taches: seq<Task>)

  /** The fields of the "new project" form. */
  datatype ProjectForm = ProjectForm(nom: string, description: string, dateLimite: string)

  const EmptyForm := ProjectForm("", "", "")

  /** The project the screen starts with. */
  function SeedProjects(): (r: seq<Project>)
    ensures |r| == 1 && IdsSequential(r) && ProgressionsInRange(r)
  {
    [Project(1, "Refonte Site E-commerce",
             "Modernisation complète de la plateforme de vente en ligne",
             Rounded(65), "2024-04-15",
             [Task(1, "Maquettes UI/UX", true),
              Task(2, "Développement Frontend", true),
              Task(3, "Intégration API", false)])]
  }

  // ---------------------------------------------------------------------------
  // Progression

  /** `taches.filter(t => t.complete).length` */
  function CompletedCount(ts: seq<Task>): (c: nat)
    ensures c <= |ts|
  {
    if ts == [] then 0 else (if ts[0].complete then 1 else 0) + CompletedCount(ts[1..])
  }

  /**
    `Math.round((completed / total) * 100)`. For a non-negative ratio `Math.round` rounds
    half up, which over integers is `floor((200 * completed + total) / (2 * total))`;
    `0 / 0` is `NaN`.
   */
  function RoundedPercent(completed: nat, total: nat): (r: Progression)
    requires completed <= total
    ensures r.NaN? <==> total == 0
    ensures r.Rounded? ==> 0 <= r.value <= 100
    ensures r.Rounded? ==> 2 * total * r.value <= 200 * completed + total < 2 * total * (r.value + 1)
  {
    if total == 0 then NaN
    else
      RoundingBounds(200 * completed + total, 2 * total);
      Rounded((200 * completed + total) / (2 * total))
  }

  /** Floor division by `d` brackets `a` between consecutive multiples of `d`; `a < 101d` bounds it by 100. */
  lemma RoundingBounds(a: nat, d: int)
    requires d > 0 && a < 101 * d
    ensures d * (a / d) <= a < d * (a / d + 1)
    ensures 0 <= a / d <= 100
  {
    var q, r := a / d, a % d;
    assert a == d * q + r && 0 <= r < d;
  }

  /** The rounded percentage is the integer nearest to `completed / total * 100`, ties rounding up. */
  lemma RoundedPercentIsNearest(completed: nat, total: nat)
    requires completed <= total && total > 0
    ensures var x := (completed as real / total as real) * 100.0;
            var r := RoundedPercent(completed, total).value as real;
            r - 0.5 <= x < r + 0.5
  {
    var v := RoundedPercent(completed, total).value;
    var c, n, r := completed as real, total as real, v as real;
    assert (total * v) as real == n * r;
    assert 2.0 * n * r <= 200.0 * c + n < 2.0 * n * (r + 1.0);
    NearestOfBounds(c, n, r);
  }

  /** `2nr <= 200c + n < 2n(r + 1)` places `c / n * 100` within half of `r`. */
  lemma NearestOfBounds(c: real, n: real, r: real)
    requires n > 0.0
    requires 2.0 * n * r <= 200.0 * c + n < 2.0 * n * (r + 1.0)
    ensures r - 0.5 <= (c / n) * 100.0 < r + 0.5
  {
    var y := c / n;
    assert c == y * n;
    var lo, hi := 2.0 * r - 200.0 * y - 1.0, 200.0 * y - 2.0 * r - 1.0;
    assert n * lo <= 0.0;
    assert n * hi < 0.0;
  }

  /** The progression `toggleTask` assigns for a task list. */
  function TaskProgression(ts: seq<Task>): (r: Progression)
    ensures r.NaN? <==> ts == []
    ensures r.Rounded? ==> 0 <= r.value <= 100
  {
    RoundedPercent(CompletedCount(ts), |ts|)
  }

  // ---------------------------------------------------------------------------
  // toggleTask

  /** `taches.map(t => t.id === taskId ? { ...t, complete: !t.complete } : t)` */
  function ToggleTaches(ts: seq<Task>, taskId: int): (r: seq<Task>)
    ensures |r| == |ts|
    ensures forall i :: 0 <= i < |ts| ==>
      r[i].id == ts[i].id && r[i].titre == ts[i].titre &&
      (r[i].complete <==> (ts[i].complete != (ts[i].id == taskId)))
  {
    seq(|ts|, i requires 0 <= i < |ts| =>
      if ts[i].id == taskId then ts[i].(complete := !ts[i].complete) else ts[i])
  }

  /** The callback given to `projets.map` in `toggleTask`. */
  function ToggleProject(p: Project, projetId: int, taskId: int): (r: Project)
    ensures r.id == p.id && r.nom == p.nom && r.description == p.description
    ensures r.dateLimite == p.dateLimite
    ensures p.id != projetId ==> r == p
    ensures p.id == projetId ==> r.taches == ToggleTaches(p.taches, taskId)
    ensures p.id == projetId ==> r.progression == TaskProgression(r.taches)
  {
    if p.id == projetId then
      var newTaches := ToggleTaches(p.taches, taskId);
      p.(taches := newTaches, progression := TaskProgression(newTaches))
    else p
  }

  /** The new project list of `toggleTask(projetId, taskId)`. */
  function ToggleProjects(ps: seq<Project>, projetId: int, taskId: int): (r: seq<Project>)
    ensures |r| == |ps|
    ensures forall i :: 0 <= i < |ps| ==> r[i].id == ps[i].id
    ensures forall i :: 0 <= i < |ps| && ps[i].id != projetId ==> r[i] == ps[i]
    ensures forall i :: 0 <= i < |ps| && ps[i].id == projetId ==>
      r[i].nom == ps[i].nom && r[i].description == ps[i].description &&
      r[i].dateLimite == ps[i].dateLimite &&
      r[i].taches == ToggleTaches(ps[i].taches, taskId) &&
      r[i].progression == TaskProgression(r[i].taches)
  {
    seq(|ps|, i requires 0 <= i < |ps| => ToggleProject(ps[i], projetId, taskId))
  }

  /** Toggling the same task twice gives back the task list. */
  lemma ToggleTachesTwice(ts: seq<Task>, taskId: int)
    ensures ToggleTaches(ToggleTaches(ts, taskId), taskId) == ts
  {
  }

  /** Toggling the same task twice gives back every project's tasks; the target's progression is recomputed. */
  lemma ToggleProjectsTwice(ps: seq<Project>, projetId: int, taskId: int)
    ensures var r := ToggleProjects(ToggleProjects(ps, projetId, taskId), projetId, taskId);
      |r| == |ps| &&
      (forall i :: 0 <= i < |ps| ==> r[i].taches == ps[i].taches) &&
      (forall i :: 0 <= i < |ps| && ps[i].id == projetId ==> r[i].progression == TaskProgression(ps[i].taches)) &&
      (forall i :: 0 <= i < |ps| && ps[i].id != projetId ==> r[i] == ps[i])
  {
  }

  /**
    Toggling a task whose id is unique in its list moves the completed count by one, up or down.
   */
  lemma {:induction false} ToggleUniqueTaskCount(ts: seq<Task>, k: nat)
    requires k < |ts|
    requires forall j :: 0 <= j < |ts| && j != k ==> ts[j].id != ts[k].id
    ensures CompletedCount(ToggleTaches(ts, ts[k].id)) ==
            if ts[k].complete then CompletedCount(ts) - 1 else CompletedCount(ts) + 1
  {
    var r := ToggleTaches(ts, ts[k].id);
    assert r[1..] == ToggleTaches(ts[1..], ts[k].id);
    if k == 0 {
      ToggleAbsentId(ts[1..], ts[0].id);
    } else {
      assert ts[1..][k - 1] == ts[k];
      ToggleUniqueTaskCount(ts[1..], k - 1);
    }
  }

  /** Toggling an id that no task has changes nothing. */
  lemma ToggleAbsentId(ts: seq<Task>, taskId: int)
    requires forall j :: 0 <= j < |ts| ==> ts[j].id != taskId
    ensures ToggleTaches(ts, taskId) == ts
  {
  }

  /**
    Toggling the third task of the seed twice gives back its tasks, but the progression is then
    the recomputed 67 (2 of 3 tasks), not the seeded 65.
   */
  lemma SeedToggleTwice()
    ensures var r := ToggleProjects(ToggleProjects(SeedProjects(), 1, 3), 1, 3);
      r[0].taches == SeedProjects()[0].taches &&
      SeedProjects()[0].progression == Rounded(65) &&
      r[0].progression == Rounded(67)
  {
  }

  // ---------------------------------------------------------------------------
  // handleAddProject

  /** A JavaScript string is truthy when it is not empty. */
  predicate FormComplete(f: ProjectForm)
  {
    f.nom != "" && f.description != "" && f.dateLimite != ""
  }

  /** The project list after `handleAddProject` with form `f`. */
  function AddProject(ps: seq<Project>, f: ProjectForm): (r: seq<Project>)
    ensures !FormComplete(f) ==> r == ps
    ensures FormComplete(f) ==> |r| == |ps| + 1 && r[..|ps|] == ps
    ensures FormComplete(f) ==>
      r[|ps|] == Project(|ps| + 1, f.nom, f.description, Rounded(0), f.dateLimite, [])
  {
    if FormComplete(f) then
      ps + [Project(|ps| + 1, f.nom, f.description, Rounded(0), f.dateLimite, [])]
    else ps
  }

  // ---------------------------------------------------------------------------
  // Invariants of the project list

  /** Project ids are 1, 2, ..., n in list order. */
  predicate IdsSequential(ps: seq<Project>)
  {
    forall i :: 0 <= i < |ps| ==> ps[i].id == i + 1
  }

  /** Every progression is a percentage in 0..100, or NaN for a project without tasks. */
  predicate ProgressionsInRange(ps: seq<Project>)
  {
    forall i :: 0 <= i < |ps| ==>
      match ps[i].progression
      case Rounded(v) => 0 <= v <= 100
      case NaN => ps[i].taches == []
  }

  /** With sequential ids, the id `handleAddProject` assigns is taken by no project. */
  lemma FreshId(ps: seq<Project>)
    requires IdsSequential(ps)
    ensures forall p :: p in ps ==> p.id != |ps| + 1
  {
  }

  lemma AddProjectKeepsInvariants(ps: seq<Project>, f: ProjectForm)
    requires IdsSequential(ps) && ProgressionsInRange(ps)
    ensures IdsSequential(AddProject(ps, f)) && ProgressionsInRange(AddProject(ps, f))
  {
  }

  lemma ToggleKeepsInvariants(ps: seq<Project>, projetId: int, taskId: int)
    requires IdsSequential(ps) && ProgressionsInRange(ps)
    ensures IdsSequential(ToggleProjects(ps, projetId, taskId))
    ensures ProgressionsInRange(ToggleProjects(ps, projetId, taskId))
  {
  }

  // ---------------------------------------------------------------------------
  // The component's state

  class AppState {
    var projets: seq<Project>
    var showNewProject: bool
    var newProject: ProjectForm

    ghost predicate Valid()
      reads this
    {
      IdsSequential(projets) && ProgressionsInRange(projets)
    }

    /** The initial state: the seeded project, the modal closed, the form empty. */
    constructor ()
      ensures Valid()
      ensures projets == SeedProjects() && !showNewProject && newProject == EmptyForm
    {
      projets := SeedProjects();
      showNewProject := false;
      newProject := EmptyForm;
    }

    /** `handleAddProject` */
    method HandleAddProject()
      requires Valid()
      modifies this
      ensures Valid()
      ensures projets == AddProject(old(projets), old(newProject))
      ensures !FormComplete(old(newProject)) ==>
        projets == old(projets) && showNewProject == old(showNewProject) && newProject == old(newProject)
      ensures FormComplete(old(newProject)) ==> !showNewProject && newProject == EmptyForm
    {
      if FormComplete(newProject) {
        AddProjectKeepsInvariants(projets, newProject);
        projets := projets + [Project(|projets| + 1, newProject.nom, newProject.description,
                                      Rounded(0), newProject.dateLimite, [])];
        showNewProject := false;
        newProject := EmptyForm;
      }
    }

    /** `toggleTask(projetId, taskId)` */
    method ToggleTask(projetId: int, taskId: int)
      requires Valid()
      modifies this`projets
      ensures Valid()
      ensures projets == ToggleProjects(old(projets), projetId, taskId)
    {
      ToggleKeepsInvariants(projets, projetId, taskId);
      projets := ToggleProjects(projets, projetId, taskId);
    }

    /** The "Nouveau Projet" button opens the modal. */
    method OpenNewProject()
      modifies this`showNewProject
      ensures showNewProject
    {
      showNewProject := true;
    }

    /** The "Annuler" button closes the modal and keeps the form. */
    method CancelNewProject()
      modifies this`showNewProject
      ensures !showNewProject
    {
      showNewProject := false;
    }

    /** The `onChange` of the name field. */
    method SetNom(value: string)
      modifies this`newProject
      ensures newProject == old(newProject).(nom := value)
    {
      newProject := newProject.(nom := value);
    }

    /** The `onChange` of the description field. */
    method SetDescription(value: string)
      modifies this`newProject
      ensures newProject == old(newProject).(description := value)
    {
      newProject := newProject.(description := value);
    }

    /** The `onChange` of the deadline field. */
    method SetDateLimite(value: string)
      modifies this`newProject
      ensures newProject == old(newProject).(dateLimite := value)
    {
      newProject := newProject.(dateLimite := value);
    }
  }
}
