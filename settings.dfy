/** The constants of the skill that the play-mode handlers read and write. */
module Settings {
  import opened Wrappers
  import opened Lights

  /** The `SKILL_STATES` tags: the handler-table scopes of the skill. */
  const ROLL_CALL_MODE: string := ""
  const PLAY_MODE: string := "_PLAY_MODE"
  const EXIT_MODE: string := "_EXIT_MODE"

  /** The `COLOR_SHADES` palette: colour family name to its shades, most intense first. */
  const COLOR_SHADES: map<string, seq<Shade>> := map[
    "blue" := ["0000ff", "000077", "000027", "000003"],
    "green" := ["00ff00", "007700", "002700", "000300"],
    "red" := ["ff0000", "770000", "270000", "030000"]
  ]

  /** The `DEFUALT_ANIMATIONS` used to reset the buttons when a round ends. */
  const DEFAULT_BUTTON_DOWN: Animation := FadeOutAnimation(1, Some("blue"), 200)
  const DEFAULT_BUTTON_UP: Animation := SolidAnimation(1, "black", 100)

  /** The palette defines exactly the families blue, green and red. */
  lemma ColorFamilies()
    ensures COLOR_SHADES.Keys == {"blue", "green", "red"}
  {
  }

  /** Every family has exactly four shades, so none is empty. */
  lemma FourShadesEach()
    ensures forall c :: c in COLOR_SHADES ==> |COLOR_SHADES[c]| == 4
  {
  }

  /** Within a family the shades are pairwise distinct. */
  lemma ShadesDistinct()
    ensures forall c, i, j :: c in COLOR_SHADES && 0 <= i < j < |COLOR_SHADES[c]| ==>
              COLOR_SHADES[c][i] != COLOR_SHADES[c][j]
  {
  }

  /** No shade belongs to two families. */
  lemma FamiliesDisjoint()
    ensures forall c, d, s :: c in COLOR_SHADES && d in COLOR_SHADES && c != d && s in COLOR_SHADES[c] ==>
              s !in COLOR_SHADES[d]
  {
  }

  /** The three skill-state tags are pairwise distinct. */
  lemma SkillStatesDistinct()
    ensures ROLL_CALL_MODE != PLAY_MODE && PLAY_MODE != EXIT_MODE && ROLL_CALL_MODE != EXIT_MODE
  {
  }
}
