/** Values shared by the speech service and the installation self-test. */
module Common {

  datatype Option<+T> = None | Some(value: T)

  /** The display server named by XDG_SESSION_TYPE; an unset variable reads as "x11". */
  function SessionType(env: Option<string>): (t: string)
    ensures env.None? ==> t == "x11"
    ensures env.Some? ==> t == env.value
  {
    match env
    case None => "x11"
    case Some(v) => v
  }

  /** Every tool choice in the service and the self-test compares the session type with "wayland". */
  predicate IsWayland(env: Option<string>) {
    SessionType(env) == "wayland"
  }
}
