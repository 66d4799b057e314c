/** Symbols and types as the device describes them. */
module TypeInfo {
  import opened Outcomes
  import opened Bytes

  datatype Symbol = Symbol(name: string, ixGroup: u32, ixOffset: u32, typ: string, size: nat, baseType: u32, flags: u32)

  datatype Attribute = Attribute(name: string, value: string)

  datatype EnumInfo = EnumInfo(name: string, value: int)

  datatype RpcParameter = RpcParameter(
    name: string, typ: string, size: nat, flags: u32, comment: string, attributes: seq<Attribute>)

  datatype RpcMethod = RpcMethod(
    name: string, returnType: string, returnSize: nat, comment: string,
    parameters: seq<RpcParameter>, attributes: seq<Attribute>)

  /** An offset of `None` means that the field is placed in some other memory block. */
  datatype Field = Field(
    name: string, typ: string, offset: Option<u32>, size: nat, bounds: seq<(i32, i32)>,
    baseType: u32, flags: u32, comment: string, attributes: Option<seq<Attribute>>)

  datatype Type = Type(
    name: string, typeName: string, comment: string, size: nat, bounds: seq<(i32, i32)>, fields: seq<Field>,
    baseType: u32, flags: u32, guid: Option<string>, methods: Option<seq<RpcMethod>>,
    attributes: Option<seq<Attribute>>, enumInfo: Option<seq<EnumInfo>>)

  type TypeMap = map<string, Type>

  const COMPOUND: u32 := 65
}
