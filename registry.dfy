/** Resource composition: one schema's controller and route definitions
    (`createResource`) and their collection over many schemas
    (`createResourceRegistry`), packages/loompi/src/registry.ts. */
module ResourceRegistry {
  import opened Values
  import opened Types
  import opened Schema
  import opened Route

  /** The object a `controllerExtensions` function returns for the factory
      context: action name to action. */
  type Extensions = map<string, Callable>

  /** The factory a resource is built with: the schemas of its context and
      its controller builder, which takes a schema name and the optional
      extensions. */
  datatype Factories = Factories(
    schemas: map<string, SchemaDefinition>,
    coreController: (string, Option<Extensions>) -> Controller)

  datatype ResourceOptions = ResourceOptions(
    controllerExtensions: Option<Extensions>,
    routeOptions: Option<CoreRouterOptions>,
    customRoutes: Option<seq<RouteSpec>>)

  const NoResourceOptions := ResourceOptions(None, None, None)

  /** An entry of the resource list: a schema name with its options. */
  datatype ResourceConfig = ResourceConfig(schemaName: string, options: ResourceOptions)

  datatype Resource = Resource(controllerRegistry: ControllerRegistry, routeDefinitions: seq<RouteDefinition>)

  datatype Registry = Registry(controllers: ControllerRegistry, routes: seq<RouteDefinition>)

  /** The controller of one resource. */
  function ControllerOf(f: Factories, schemaName: string, options: ResourceOptions): Controller {
    f.coreController(schemaName, options.controllerExtensions)
  }

  /** The route definitions of one resource: its custom routes, when the
      option is present (even as an empty list), before its core routes. */
  function ResourceRoutes(f: Factories, schemaName: string, options: ResourceOptions): seq<RouteDefinition>
    requires schemaName in f.schemas
  {
    var core := CoreRoutes(schemaName, f.schemas[schemaName].info.pluralName, options.routeOptions.GetOr(NoRouterOptions));
    (if options.customRoutes.Some? then [CreateCustomRoutes(options.customRoutes.value)] else []) + [core]
  }

  /** `createResource(factories, schemaName, options)`. */
  method CreateResource(f: Factories, schemaName: string, options: Option<ResourceOptions>) returns (r: Resource)
    requires schemaName in f.schemas
    ensures r.controllerRegistry.Keys == {schemaName}
    ensures r.controllerRegistry[schemaName] == ControllerOf(f, schemaName, options.GetOr(NoResourceOptions))
    ensures r.routeDefinitions == ResourceRoutes(f, schemaName, options.GetOr(NoResourceOptions))
    ensures options.Some? && options.value.customRoutes.Some? ==>
      |r.routeDefinitions| == 2 && r.routeDefinitions[0].routes == options.value.customRoutes.value
    ensures !(options.Some? && options.value.customRoutes.Some?) ==> |r.routeDefinitions| == 1
  {
    var opts := options.GetOr(NoResourceOptions);
    var controller := f.coreController(schemaName, opts.controllerExtensions);
    var coreRoutes := CreateCoreRoutes(f.schemas, schemaName, opts.routeOptions.GetOr(NoRouterOptions));
    var routes: seq<RouteDefinition> := [];
    if opts.customRoutes.Some? {
      routes := routes + [CreateCustomRoutes(opts.customRoutes.value)];
    }
    routes := routes + [coreRoutes];
    r := Resource(map[schemaName := controller], routes);
  }

  /** Every listed schema name is a key of the factory's schemas. */
  predicate AllKnown(f: Factories, resources: seq<ResourceConfig>) {
    forall i :: 0 <= i < |resources| ==> resources[i].schemaName in f.schemas
  }

  /** The controller map after processing `resources` in order. */
  function RegistryControllers(f: Factories, resources: seq<ResourceConfig>): ControllerRegistry
    decreases |resources|
  {
    if |resources| == 0 then map[]
    else
      var last := resources[|resources| - 1];
      RegistryControllers(f, resources[..|resources| - 1])[last.schemaName := ControllerOf(f, last.schemaName, last.options)]
  }

  /** The route definitions after processing `resources` in order. */
  function RegistryRoutes(f: Factories, resources: seq<ResourceConfig>): seq<RouteDefinition>
    requires AllKnown(f, resources)
    decreases |resources|
  {
    if |resources| == 0 then []
    else
      var last := resources[|resources| - 1];
      RegistryRoutes(f, resources[..|resources| - 1]) + ResourceRoutes(f, last.schemaName, last.options)
  }

  /** `createResourceRegistry(factories, resources)`. */
  method CreateResourceRegistry(f: Factories, resources: seq<ResourceConfig>) returns (reg: Registry)
    requires AllKnown(f, resources)
    ensures reg.controllers == RegistryControllers(f, resources)
    ensures reg.routes == RegistryRoutes(f, resources)
  {
    var controllers: ControllerRegistry := map[];
    var allRoutes: seq<RouteDefinition> := [];
    for i := 0 to |resources|
      invariant controllers == RegistryControllers(f, resources[..i])
      invariant allRoutes == RegistryRoutes(f, resources[..i])
    {
      var resource := resources[i];
      var made := CreateResource(f, resource.schemaName, Some(resource.options));
      controllers := controllers[resource.schemaName := made.controllerRegistry[resource.schemaName]];
      allRoutes := allRoutes + made.routeDefinitions;
      PrefixStep(f, resources, i);
    }
    assert resources[..|resources|] == resources;
    reg := Registry(controllers, allRoutes);
  }

  /** One more resource: the specification functions take one step. */
  lemma PrefixStep(f: Factories, resources: seq<ResourceConfig>, i: nat)
    requires AllKnown(f, resources) && i < |resources|
    ensures AllKnown(f, resources[..i]) && AllKnown(f, resources[..i + 1])
    ensures RegistryControllers(f, resources[..i + 1])
      == RegistryControllers(f, resources[..i])[resources[i].schemaName := ControllerOf(f, resources[i].schemaName, resources[i].options)]
    ensures RegistryRoutes(f, resources[..i + 1])
      == RegistryRoutes(f, resources[..i]) + ResourceRoutes(f, resources[i].schemaName, resources[i].options)
  {
    assert resources[..i + 1][..i] == resources[..i];
  }

  /** The controller keys are exactly the listed schema names. */
  lemma {:induction false} RegistryKeys(f: Factories, resources: seq<ResourceConfig>)
    ensures RegistryControllers(f, resources).Keys == set i | 0 <= i < |resources| :: resources[i].schemaName
    decreases |resources|
  {
    if |resources| > 0 {
      var n := |resources| - 1;
      var prefix := resources[..n];
      RegistryKeys(f, prefix);
      var before := set i | 0 <= i < |prefix| :: prefix[i].schemaName;
      var after := set i | 0 <= i < |resources| :: resources[i].schemaName;
      assert after == before + {resources[n].schemaName} by {
        forall x | x in after ensures x in before + {resources[n].schemaName} {
          var i :| 0 <= i < |resources| && resources[i].schemaName == x;
          if i < n { assert prefix[i] == resources[i]; }
        }
        forall x | x in before ensures x in after {
          var i :| 0 <= i < |prefix| && prefix[i].schemaName == x;
          assert resources[i] == prefix[i];
        }
      }
    }
  }

  /** Resource `i` is the last one listing its schema name (the hypothesis
      of `RegistryLastWins`). */
  predicate LastListing(resources: seq<ResourceConfig>, i: int) {
    && 0 <= i < |resources|
    && forall j :: i < j < |resources| ==> resources[j].schemaName != resources[i].schemaName
  }

  /** A schema name maps to the controller of the last resource listing it:
      a later resource with the same name replaces an earlier one. */
  lemma {:induction false} RegistryLastWins(f: Factories, resources: seq<ResourceConfig>, i: int)
    requires LastListing(resources, i)
    ensures resources[i].schemaName in RegistryControllers(f, resources)
    ensures RegistryControllers(f, resources)[resources[i].schemaName] == ControllerOf(f, resources[i].schemaName, resources[i].options)
    decreases |resources|
  {
    var n := |resources| - 1;
    if i < n {
      var prefix := resources[..n];
      assert resources[n].schemaName != resources[i].schemaName;
      assert prefix[i] == resources[i];
      assert LastListing(prefix, i) by {
        forall j | i < j < |prefix| ensures prefix[j].schemaName != prefix[i].schemaName {
          assert prefix[j] == resources[j];
        }
      }
      RegistryLastWins(f, prefix, i);
    }
  }

  /** Route definitions concatenate over the resource list. */
  lemma {:induction false} RegistryRoutesAppend(f: Factories, a: seq<ResourceConfig>, b: seq<ResourceConfig>)
    requires AllKnown(f, a) && AllKnown(f, b)
    ensures AllKnown(f, a + b)
    ensures RegistryRoutes(f, a + b) == RegistryRoutes(f, a) + RegistryRoutes(f, b)
    decreases |b|
  {
    assert forall i :: 0 <= i < |a + b| ==> (a + b)[i] == if i < |a| then a[i] else b[i - |a|];
    if |b| == 0 {
      assert a + b == a;
    } else {
      var b' := b[..|b| - 1];
      assert AllKnown(f, b') by {
        forall i | 0 <= i < |b'| ensures b'[i].schemaName in f.schemas {
          assert b'[i] == b[i];
        }
      }
      assert (a + b)[..|a + b| - 1] == a + b';
      RegistryRoutesAppend(f, a, b');
    }
  }

  /** Two resources with the same schema name: the later controller replaces
      the earlier one, and both resources' routes are kept, in order. */
  lemma SameNameTwice(f: Factories, name: string, o1: ResourceOptions, o2: ResourceOptions)
    requires name in f.schemas
    ensures AllKnown(f, [ResourceConfig(name, o1), ResourceConfig(name, o2)])
    ensures RegistryControllers(f, [ResourceConfig(name, o1), ResourceConfig(name, o2)]) == map[name := ControllerOf(f, name, o2)]
    ensures RegistryRoutes(f, [ResourceConfig(name, o1), ResourceConfig(name, o2)]) == ResourceRoutes(f, name, o1) + ResourceRoutes(f, name, o2)
  {
    var r1 := ResourceConfig(name, o1);
    var rs := [r1, ResourceConfig(name, o2)];
    assert rs[..1] == [r1];
    assert [r1][..0] == [];
    assert RegistryControllers(f, [r1]) == map[name := ControllerOf(f, name, o1)];
    assert RegistryRoutes(f, [r1]) == ResourceRoutes(f, name, o1);
  }

  /** No resources: no controllers and no routes. */
  lemma EmptyRegistry(f: Factories)
    ensures RegistryControllers(f, []) == map[] && RegistryRoutes(f, []) == []
  {
  }
}
