/** The literal values of sharp_timer/constants.py that the core uses. */
module Constants {

  const ModeWork: string := "work"
  const ModeRestEyes: string := "rest_eyes"
  const ModeLongRest: string := "long_rest"

  /** Default durations, in minutes. */
  const DefaultWorkDuration: int := 25
  const DefaultRestEyesDuration: int := 5
  const DefaultLongRestDuration: int := 15

  /** The three mode names the application knows. */
  predicate IsKnownMode(mode: string) {
    mode == ModeWork || mode == ModeRestEyes || mode == ModeLongRest
  }
}
