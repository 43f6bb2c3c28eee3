/**
 * The energy-system assets the medium-voltage builder emits (cables, joints,
 * transformers), reduced to what the core reads and writes of them, and the
 * list helpers of `EsdlHelperFunctions`.
 */
module Esdl {
  import opened Wrappers
  import opened Geometry
  import Lists

  datatype AssetKind = Cable | Joint | Transformer

  datatype PortKind = InPort | OutPort

  /** A port; the `connectedTo` wiring between ports is not part of the model. */
  datatype Port = Port(kind: PortKind, name: string)

  /**
   * An asset. `commissioningYear` is the year of `commissioningDate`:
   * `None` when the date is unset, `Some(1)` for `datetime.min`.
   */
  datatype Asset = Asset(kind: AssetKind, name: string, at: Point,
                         commissioningYear: Option<int>, assetType: string, ports: seq<Port>)

  predicate IsInPortName(p: Port) { p.name == "In" }
  predicate IsOutPortName(p: Port) { p.name == "Out" }

  /** `get_all_in_ports_from_esdl_obj`. */
  function InPorts(obj: Asset): (r: seq<Port>)
    ensures forall i :: 0 <= i < |r| ==> r[i].name == "In" && r[i] in obj.ports
    ensures forall i :: 0 <= i < |obj.ports| && obj.ports[i].name == "In" ==> obj.ports[i] in r
  {
    Lists.Filter(obj.ports, IsInPortName)
  }

  /** `get_all_out_ports_from_esdl_obj`. */
  function OutPorts(obj: Asset): (r: seq<Port>)
    ensures forall i :: 0 <= i < |r| ==> r[i].name == "Out" && r[i] in obj.ports
    ensures forall i :: 0 <= i < |obj.ports| && obj.ports[i].name == "Out" ==> obj.ports[i] in r
  {
    Lists.Filter(obj.ports, IsOutPortName)
  }

  /** `get_all_esdl_objects_from_type`: the assets of one kind, in order. */
  function ObjectsOfKind(collection: seq<Asset>, kind: AssetKind): (r: seq<Asset>)
    ensures |r| <= |collection|
    ensures forall i :: 0 <= i < |r| ==> r[i].kind == kind && r[i] in collection
    ensures forall i :: 0 <= i < |collection| && collection[i].kind == kind ==> collection[i] in r
  {
    Lists.Filter(collection, (a: Asset) => a.kind == kind)
  }

  /** The assets of every kind together are the whole collection, so no asset is lost. */
  lemma {:induction false} KindsPartitionCollection(collection: seq<Asset>)
    ensures |ObjectsOfKind(collection, Cable)| + |ObjectsOfKind(collection, Joint)|
            + |ObjectsOfKind(collection, Transformer)| == |collection|
  {
    if collection != [] {
      KindsPartitionCollection(collection[1..]);
    }
  }

  /** `generate_esdl_joint`: a joint at (lat, long) with an "In" and an "Out" port. */
  function GenerateEsdlJoint(lat: real, long: real, name: string): (joint: Asset)
    ensures joint.kind == Joint && joint.name == name && joint.at == Point(lat, long)
    ensures joint.commissioningYear == None
    ensures |joint.ports| == 2 && joint.ports[0] == Port(InPort, "In") && joint.ports[1] == Port(OutPort, "Out")
    ensures InPorts(joint) == [joint.ports[0]] && OutPorts(joint) == [joint.ports[1]]
  {
    var joint := Asset(Joint, name, Point(lat, long), None, "", [Port(InPort, "In"), Port(OutPort, "Out")]);
    assert joint.ports[1..] == [Port(OutPort, "Out")];
    joint
  }

  /** The asset list of an energy system's area (`energy_system.instance[0].area.asset`). */
  class EnergySystem {
    var assets: seq<Asset>

    constructor ()
      ensures assets == []
    {
      assets := [];
    }

    /** `add_new_assets_to_energy_system`: appends the objects in order after the existing assets. */
    method AddNewAssets(objs: seq<Asset>)
      modifies this
      ensures assets == old(assets) + objs
    {
      for i := 0 to |objs|
        invariant assets == old(assets) + objs[..i]
      {
        assets := assets + [objs[i]];
      }
    }
  }
}
