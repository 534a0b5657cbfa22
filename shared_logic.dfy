/**
 * The portal factory and the portal's scoped lifecycle (portals/shared_logic.py).
 *
 * `importlib.import_module` and `getattr` are replaced by an explicit registry:
 * importable module names mapped to what importing them gives, namely the
 * module's attributes or the exception the import raises. A constructed portal
 * is represented by the class it was built from and the arguments it was built with.
 */
module SharedLogic {
  import opened Wrappers
  import opened Http
  import Utils
  import CP = ClickPay

  /** The exceptions the factory's handlers tell apart. */
  datatype Raised =
    | AttributeErr(message: string)
    | ModuleNotFoundErr(message: string)
    | OtherErr(message: string)

  /** What calling a class with `(username, password)` does. */
  datatype Constructor = Constructs | ConstructorRaises(raised: Raised)

  /** A module attribute as `getattr` returns it. */
  datatype Attribute = NotAClass | Class(isRentPortal: bool, init: Constructor)

  datatype ModuleEntry = Loads(attributes: map<string, Attribute>) | ImportRaises(raised: Raised)

  type Registry = map<string, ModuleEntry>

  /** An instance of class `className` built with `(username, password)`. */
  datatype Portal = Portal(className: string, username: string, password: string)

  datatype FactoryError =
    | ValueError(message: string)
    | RuntimeError(message: string)
    | UnboundLocalError(name: string)  // a handler's message names a variable not yet assigned

  const PortalsPackage := "portals."
  const RuntimePrefix := "An error occurred while creating the portal: "

  function ModuleNotFoundMessage(moduleName: string): string
  {
    "Module '" + moduleName + "' not found."
  }

  function ClassNotFoundMessage(className: string, moduleName: string): string
  {
    "Class '" + className + "' not found in the module '" + moduleName + "'."
  }

  /**
   * The `except` clauses of `create_portal`, in order. `className` is `None` while
   * `class_name` is still unassigned, and the `AttributeError` handler's message
   * then fails on it.
   */
  function Handle(raised: Raised, moduleName: string, className: Option<string>): FactoryError
  {
    match raised
    case ModuleNotFoundErr(_) => ValueError(ModuleNotFoundMessage(moduleName))
    case AttributeErr(_) =>
      (match className
       case None => UnboundLocalError("class_name")
       case Some(c) => ValueError(ClassNotFoundMessage(c, moduleName)))
    case OtherErr(m) => RuntimeError(RuntimePrefix + m)
  }

  /** `RentPortalFactory.create_portal` */
  function CreatePortal(registry: Registry, tenantPortal: string, username: string, password: string): Result<Portal, FactoryError>
  {
    var moduleName := PortalsPackage + tenantPortal;
    if moduleName !in registry then
      Err(Handle(ModuleNotFoundErr("No module named '" + moduleName + "'"), moduleName, None))
    else match registry[moduleName]
      case ImportRaises(raised) => Err(Handle(raised, moduleName, None))
      case Loads(attributes) =>
        var className := Utils.SnakeToCamel(tenantPortal);
        if className !in attributes then
          Err(Handle(AttributeErr("module has no attribute '" + className + "'"), moduleName, Some(className)))
        else match attributes[className]
          case NotAClass =>
            Err(Handle(OtherErr("issubclass() arg 1 must be a class"), moduleName, Some(className)))
          case Class(isRentPortal, init) =>
            if !isRentPortal then
              Err(Handle(OtherErr(className + " is not a subclass of RentPortal"), moduleName, Some(className)))
            else match init
              case Constructs => Ok(Portal(className, username, password))
              case ConstructorRaises(raised) => Err(Handle(raised, moduleName, Some(className)))
  }

  /** Registering a module under `moduleName`. */
  function Register(registry: Registry, moduleName: string, entry: ModuleEntry): (r: Registry)
    ensures r.Keys == registry.Keys + {moduleName} && r[moduleName] == entry
    ensures forall m :: m in registry && m != moduleName ==> r[m] == registry[m]
  {
    registry[moduleName := entry]
  }

  /** The portal modules of this repository, with the attributes that can be looked up. */
  const Portals: Registry := map[
    "portals.click_pay" := Loads(map[
      "ClickPay" := Class(true, Constructs),
      "RentPortal" := Class(true, ConstructorRaises(OtherErr("Can't instantiate abstract class RentPortal")))]),
    "portals.shared_logic" := Loads(map[
      "RentPortal" := Class(true, ConstructorRaises(OtherErr("Can't instantiate abstract class RentPortal"))),
      "RentPortalFactory" := Class(false, Constructs)])
  ]

  // ---------------------------------------------------------------------------
  // Properties of the factory

  /**
   * `create_portal` succeeds exactly when the module `portals.<id>` imports, holds
   * a class named `snake_to_camel(<id>)` that is a RentPortal subclass, and that
   * class constructs; the portal is then that class built with the credentials.
   */
  lemma CreatePortalSucceeds(registry: Registry, tenantPortal: string, username: string, password: string)
    ensures var r := CreatePortal(registry, tenantPortal, username, password);
      var moduleName := "portals." + tenantPortal;
      var className := Utils.SnakeToCamel(tenantPortal);
      && (r.Ok? <==>
            && moduleName in registry && registry[moduleName].Loads?
            && className in registry[moduleName].attributes
            && registry[moduleName].attributes[className] == Class(true, Constructs))
      && (r.Ok? ==> r.value == Portal(className, username, password))
  {
  }

  /** A missing module is a ValueError naming it. */
  lemma UnknownModule(registry: Registry, tenantPortal: string, username: string, password: string)
    requires "portals." + tenantPortal !in registry
    ensures CreatePortal(registry, tenantPortal, username, password)
         == Err(ValueError(ModuleNotFoundMessage("portals." + tenantPortal)))
  {
  }

  /** A module without the class is a ValueError naming both. */
  lemma MissingClass(registry: Registry, tenantPortal: string, username: string, password: string)
    requires "portals." + tenantPortal in registry
    requires registry["portals." + tenantPortal].Loads?
    requires Utils.SnakeToCamel(tenantPortal) !in registry["portals." + tenantPortal].attributes
    ensures CreatePortal(registry, tenantPortal, username, password)
         == Err(ValueError(ClassNotFoundMessage(Utils.SnakeToCamel(tenantPortal), "portals." + tenantPortal)))
  {
  }

  /**
   * The TypeError raised for a class that is not a RentPortal subclass is not one
   * of the two named handlers' exceptions, so it surfaces as a RuntimeError.
   */
  lemma NotASubclass(registry: Registry, tenantPortal: string, username: string, password: string)
    requires "portals." + tenantPortal in registry
    requires registry["portals." + tenantPortal].Loads?
    requires var attributes := registry["portals." + tenantPortal].attributes;
      Utils.SnakeToCamel(tenantPortal) in attributes
      && attributes[Utils.SnakeToCamel(tenantPortal)].Class?
      && !attributes[Utils.SnakeToCamel(tenantPortal)].isRentPortal
    ensures CreatePortal(registry, tenantPortal, username, password)
         == Err(RuntimeError(RuntimePrefix + (Utils.SnakeToCamel(tenantPortal) + " is not a subclass of RentPortal")))
  {
  }

  /**
   * A constructor failure is reported through the same handlers: an AttributeError
   * reads as "class not found", a ModuleNotFoundError as "module not found", and
   * anything else as a RuntimeError carrying its message.
   */
  lemma ConstructorFailure(registry: Registry, tenantPortal: string, username: string, password: string)
    requires "portals." + tenantPortal in registry
    requires registry["portals." + tenantPortal].Loads?
    requires var attributes := registry["portals." + tenantPortal].attributes;
      Utils.SnakeToCamel(tenantPortal) in attributes
      && attributes[Utils.SnakeToCamel(tenantPortal)].Class?
      && attributes[Utils.SnakeToCamel(tenantPortal)].isRentPortal
      && attributes[Utils.SnakeToCamel(tenantPortal)].init.ConstructorRaises?
    ensures var raised := registry["portals." + tenantPortal].attributes[Utils.SnakeToCamel(tenantPortal)].init.raised;
      var r := CreatePortal(registry, tenantPortal, username, password);
      && (raised.AttributeErr? ==>
            r == Err(ValueError(ClassNotFoundMessage(Utils.SnakeToCamel(tenantPortal), "portals." + tenantPortal))))
      && (raised.ModuleNotFoundErr? ==> r == Err(ValueError(ModuleNotFoundMessage("portals." + tenantPortal))))
      && (raised.OtherErr? ==> r == Err(RuntimeError(RuntimePrefix + raised.message)))
  {
  }

  /** Registering another module leaves the resolution of every other identifier as it was. */
  lemma RegisterIsolated(registry: Registry, moduleName: string, entry: ModuleEntry,
                         tenantPortal: string, username: string, password: string)
    requires moduleName != "portals." + tenantPortal
    ensures CreatePortal(Register(registry, moduleName, entry), tenantPortal, username, password)
         == CreatePortal(registry, tenantPortal, username, password)
  {
  }

  /** `click_pay` resolves to class `ClickPay` of module `portals.click_pay`. */
  lemma ClickPayResolves(username: string, password: string)
    ensures CreatePortal(Portals, "click_pay", username, password) == Ok(Portal("ClickPay", username, password))
  {
    ClickPayResolvesFrom("click_pay", username, password);
  }

  lemma ClickPayResolvesFrom(tenantPortal: string, username: string, password: string)
    requires tenantPortal == "click_pay"
    ensures CreatePortal(Portals, tenantPortal, username, password) == Ok(Portal("ClickPay", username, password))
  {
    Utils.SnakeToCamelClickPayFrom(tenantPortal);
    var moduleName := PortalsPackage + tenantPortal;
    assert moduleName == "portals.click_pay";
    assert moduleName in Portals;
    var attributes := Portals[moduleName].attributes;
    assert "ClickPay" in attributes && attributes["ClickPay"] == Class(true, Constructs);
    CreatePortalSucceeds(Portals, tenantPortal, username, password);
  }

  /**
   * `shared_logic` imports but names class `SharedLogic`, which that module does
   * not define, so the factory reports the class as not found.
   */
  lemma SharedLogicIsNotAPortal(username: string, password: string)
    ensures CreatePortal(Portals, "shared_logic", username, password)
         == Err(ValueError(ClassNotFoundMessage("SharedLogic", "portals.shared_logic")))
  {
    SharedLogicIsNotAPortalFrom("shared_logic", username, password);
  }

  lemma SharedLogicIsNotAPortalFrom(tenantPortal: string, username: string, password: string)
    requires tenantPortal == "shared_logic"
    ensures CreatePortal(Portals, tenantPortal, username, password)
         == Err(ValueError(ClassNotFoundMessage("SharedLogic", "portals.shared_logic")))
  {
    Utils.SnakeToCamelSharedLogicFrom(tenantPortal);
    var moduleName := PortalsPackage + tenantPortal;
    assert moduleName == "portals.shared_logic";
    assert moduleName in Portals;
    var attributes := Portals[moduleName].attributes;
    assert attributes.Keys == {"RentPortal", "RentPortalFactory"};
    assert "SharedLogic" !in attributes;
    MissingClass(Portals, tenantPortal, username, password);
  }

  // ---------------------------------------------------------------------------
  // The scoped lifecycle

  /**
   * `async with portal: data = await portal.get_data()`. The session is closed once
   * when `__aenter__` returned, whether `get_data` then returned or raised; when
   * `__aenter__` raised, `__aexit__` does not run and the session stays open.
   */
  method WithPortal(portal: CP.ClickPay, server: Server) returns (r: Result<CP.Partial, CP.Error>)
    modifies portal
    ensures portal.session != null && fresh(portal.session) && portal.session.server == server
    ensures var start := CP.SessionStart(old(portal.headers), map[], portal.userName, portal.userPassword, server);
      && portal.headers == start.headers
      && (start.outcome.Fail? ==>
            && r == Err(start.outcome.error)
            && portal.session.sent == start.sent
            && portal.session.jar == JarAfter(map[], server, start.sent)
            && portal.session.closeCalls == 0)
      && (start.outcome.Pass? ==>
            && portal.session.sent == start.sent + CP.DataRequests(start.headers)
            && portal.session.jar == JarAfter(map[], server, portal.session.sent)
            && portal.session.closeCalls == 1
            && CP.Gathered(r, CP.ReadUserContext(Reply(server, CP.UserContextUrl)),
                              CP.ReadProperty(Reply(server, CP.ImpersonationUrl)))
            && (r.Ok? ==> r.value.Keys == {CP.EmailKey, CP.PhoneKey, CP.CompanyKey, CP.AddressKey}))
  {
    var entered := portal.AEnter(server);
    if entered.Fail? {
      return Err(entered.error);
    }
    ghost var startSent := portal.session.sent;
    r := portal.GetData();
    JarAfterAppend(map[], server, startSent, CP.DataRequests(portal.headers));
    CP.GetDataRecord(r, server);
    portal.AExit();
  }
}
