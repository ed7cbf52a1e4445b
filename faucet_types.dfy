/** Resolving a faucet type name to the class that implements it
    (`get_faucet_class` in both faucet modules), and the relay index a faucet
    is configured with. */
module FaucetTypes {
  import opened Wrappers
  import opened Text

  /** The relay a faucet drives, as configured: either text such as "0" or
      "A", or a number. */
  datatype RelayIdx = RelayName(text: string) | RelayNumber(number: int)

  /** `str(relay_idx)`. */
  function RelayText(r: RelayIdx): string {
    match r
    case RelayName(t) => t
    case RelayNumber(n) => DecimalString(n)
  }

  /** A class found by name inside an importable module. */
  datatype ClassRef = ClassRef(moduleName: string, className: string)

  /** `import_module` raising ModuleNotFoundError, or `getattr` raising
      AttributeError. */
  datatype LookupError = ModuleNotFound(moduleName: string) | NoSuchClass(moduleName: string, className: string)

  /** The importable modules of the installation, each with the names of the
      classes it defines. */
  type ModuleTable = map<string, set<string>>

  function Resolve(moduleName: string, className: string, modules: ModuleTable): (r: Result<ClassRef, LookupError>)
    ensures r.Success? <==> moduleName in modules && className in modules[moduleName]
    ensures r.Success? ==> r.value == ClassRef(moduleName, className)
    ensures r.Failure? ==> r.error == (if moduleName in modules then NoSuchClass(moduleName, className) else ModuleNotFound(moduleName))
  {
    if moduleName !in modules then Failure(ModuleNotFound(moduleName))
    else if className !in modules[moduleName] then Failure(NoSuchClass(moduleName, className))
    else Success(ClassRef(moduleName, className))
  }

  /** icomputer/faucet.py: the module `icomputer.<lower-cased type>` and,
      inside it, the class named exactly as the type. */
  function GetFaucetClass(faucetType: string, modules: ModuleTable): (r: Result<ClassRef, LookupError>)
    ensures r.Success? <==> "icomputer." + Lower(faucetType) in modules
                            && faucetType in modules["icomputer." + Lower(faucetType)]
    ensures r.Success? ==> r.value.className == faucetType
  {
    Resolve("icomputer." + Lower(faucetType), faucetType, modules)
  }

  /** faucet.py: the top-level module `<lower-cased type>` and the class named
      exactly as the type. */
  function GetFaucetClassTopLevel(faucetType: string, modules: ModuleTable): (r: Result<ClassRef, LookupError>)
    ensures r.Success? <==> Lower(faucetType) in modules && faucetType in modules[Lower(faucetType)]
    ensures r.Success? ==> r.value.className == faucetType
  {
    Resolve(Lower(faucetType), faucetType, modules)
  }

  /** The faucet types each lookup can resolve, as a predicate on type names. */
  function Resolvable(modules: ModuleTable): string -> bool
  {
    t => GetFaucetClass(t, modules).Success?
  }

  function ResolvableTopLevel(modules: ModuleTable): string -> bool
  {
    t => GetFaucetClassTopLevel(t, modules).Success?
  }

  /** Type names that differ only in letter case select the same module but
      still need their own, exactly named, class. */
  lemma CaseSelectsModuleOnly(a: string, b: string, modules: ModuleTable)
    requires Lower(a) == Lower(b) && a != b
    requires GetFaucetClass(a, modules).Success?
    ensures GetFaucetClass(b, modules).Success? <==> b in modules["icomputer." + Lower(a)]
    ensures GetFaucetClass(b, modules).Failure? ==> GetFaucetClass(b, modules).error.NoSuchClass?
  {
  }

  /** Resolving "Numato" with no `numato` module installed fails. */
  lemma UnknownTypeFails(modules: ModuleTable)
    requires "icomputer.numato" !in modules
    ensures GetFaucetClass("Numato", modules) == Failure(ModuleNotFound("icomputer.numato"))
  {
    var l := Lower("Numato");
    assert l[0] == 'n' && l[1] == 'u' && l[2] == 'm' && l[3] == 'a' && l[4] == 't' && l[5] == 'o';
    assert l == "numato";
    assert "icomputer." + l == "icomputer.numato";
  }
}
