/** `get_skyline_crate_name` (skyline-macro/src/lib.rs): the path generated code uses
    for the `skyline` crate, from what the manifest lookup reports. It sits apart from
    `MacroLib` because the hook generators call it and `MacroLib` calls them. */
module SkylineCrate {
  import opened Wrappers
  import opened HookItems

  /** `proc_macro_crate::FoundCrate`. */
  datatype FoundCrate = Itself | Named(name: string)

  /** Inside the crate itself the path is `crate`; elsewhere it is the name the
      dependency was imported under; a failed lookup becomes a compile error carrying
      the lookup's message. */
  function CratePath(lookup: Result<FoundCrate, string>): (r: Result<string, CompileError>)
    ensures r.Err? <==> lookup.Err?
    ensures r.Err? ==> r.error == CompileError(lookup.error)
    ensures lookup == Ok(Itself) ==> r == Ok("crate")
    ensures lookup.Ok? && lookup.value.Named? ==> r == Ok(lookup.value.name)
  {
    match lookup
    case Ok(Itself) => Ok("crate")
    case Ok(Named(n)) => Ok(n)
    case Err(e) => Err(CompileError(e))
  }
}
