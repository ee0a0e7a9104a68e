/**
 * The two switch tables that turn a skill's proficiency level into CSS utility
 * classes: a gradient for the progress bar and a badge colour scheme.
 * Any string other than the four known level names falls through to gray.
 */
module LevelStyles {
  import opened Wrappers

  /** The four level names the skill data uses. */
  datatype Level = Expert | Advanced | Intermediate | Beginner

  function LevelName(l: Level): string {
    match l
    case Expert => "Expert"
    case Advanced => "Advanced"
    case Intermediate => "Intermediate"
    case Beginner => "Beginner"
  }

  /** Recognises a level name (exact, case-sensitive match, as `===` does). */
  function ParseLevel(s: string): (r: Option<Level>)
    ensures r.Some? ==> LevelName(r.value) == s
    ensures r.None? ==> forall l: Level :: LevelName(l) != s
  {
    if s == "Expert" then Some(Expert)
    else if s == "Advanced" then Some(Advanced)
    else if s == "Intermediate" then Some(Intermediate)
    else if s == "Beginner" then Some(Beginner)
    else None
  }

  const DefaultGradient: string := "bg-gradient-to-r from-gray-400 to-gray-500"

  /** Progress-bar gradient for a level (`getLevelColor`). */
  function LevelColor(level: string): (r: string)
    ensures r == DefaultGradient <==> ParseLevel(level).None?
  {
    if level == "Expert" then "bg-gradient-to-r from-pink-500 to-rose-500"
    else if level == "Advanced" then "bg-gradient-to-r from-purple-500 to-violet-500"
    else if level == "Intermediate" then "bg-gradient-to-r from-orange-500 to-amber-500"
    else if level == "Beginner" then "bg-gradient-to-r from-green-500 to-emerald-500"
    else DefaultGradient
  }

  const DefaultBadge: string := "bg-gray-100 text-gray-800 border-gray-200"

  /** Badge colour scheme for a level (`getLevelBadgeColor`). */
  function LevelBadgeColor(level: string): (r: string)
    ensures r == DefaultBadge <==> ParseLevel(level).None?
  {
    if level == "Expert" then "bg-pink-100 text-pink-800 border-pink-200"
    else if level == "Advanced" then "bg-purple-100 text-purple-800 border-purple-200"
    else if level == "Intermediate" then "bg-orange-100 text-orange-800 border-orange-200"
    else if level == "Beginner" then "bg-green-100 text-green-800 border-green-200"
    else DefaultBadge
  }

  /** Different levels never share a gradient or a badge, and none shares the default. */
  lemma StylesDistinguishLevels(a: Level, b: Level)
    ensures a != b ==> LevelColor(LevelName(a)) != LevelColor(LevelName(b))
    ensures a != b ==> LevelBadgeColor(LevelName(a)) != LevelBadgeColor(LevelName(b))
    ensures LevelColor(LevelName(a)) != DefaultGradient
  {
  }
}
