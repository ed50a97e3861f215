# Join-token rotation and image rewrite, modelled in Dafny

Two pieces of a self-managed Kubernetes cluster's tooling are modelled here.

**The join-token refresh Lambda** (`tf/lambda_function.py`). On each trigger it:

1. locates the control-plane instance;
2. reads the stored worker join command from the SSM Parameter Store;
3. runs `kubeadm token create --print-join-command` on the instance through SSM Run Command and waits for it;
4. stores the stripped output under `/k8s/worker/join-command-majd` as a `SecureString`, overwriting.

The model is a pure function over an abstract world: the `describe_instances` reservations, the parameter store, how the remote command ends, and a clock. It returns:

- a status code or the exception that escapes;
- the ordered trace of AWS calls made;
- the parameter store left behind.

**The manifest image rewrite** (`argoCD_main/change_yaml.py`). It reads an image name from the Parameter Store. It then sets `image` on every container under `spec.template.spec.containers` that already has that key. The loaded document is modelled as a tree of strings, other scalars, lists and string-keyed mappings.

Modules:

- `Wrappers`: `Option` and `Result`.
- `PyStrings`: Python's `str.isspace`, `str.strip()` and substring `in`.
- `Ssm`: parameters, `get_parameter` and `put_parameter`.
- `JoinToken`: the Lambda. `Handle(policy, w)` takes the freshness guard as a parameter. `AlwaysRotate` is the guard as written (`True or …`). `TimeGated` is the age test that the guard short-circuits. `LambdaHandler` is `Handle(AlwaysRotate, ·)`.
- `JoinTokenProperties`: all-inputs lemmas about the Lambda.
- `YamlDoc`: document nodes, and subscripting along a key path and assigning at its end.
- `ChangeYaml`: the container loop and `update_image_from_ssm`, with its lemmas.

Details of the code the model keeps:

- The (unreachable) age test is strictly greater than 23 hours, and `IsStale` uses `>`.
- Only the first reservation is looked at.
- Only the no-instance case returns 500. A rejected `send_command` or a failed waiter escapes as `Raised`.
- The handler tests the instance id for Python truthiness. An empty-string id is therefore treated like a missing one, and the handler returns 500.

## Model

| member | source | states |
|---|---|---|
| PyStrings.Strip | tf/lambda_function.py:67 | the result is the input with a whitespace run removed from each end (Python `isspace` characters), and neither end of the result is whitespace |
| PyStrings.StripCharacterized | tf/lambda_function.py:67 | a string is the strip of `s` if and only if it is what `Strip` returns, so the stripped form is unique |
| PyStrings.StripIdempotent | tf/lambda_function.py:67 | stripping the stripped command output again changes nothing |
| Ssm.GetParameter | tf/lambda_function.py:19-21 | a lookup finds the parameter exactly when the name is stored, and yields the stored value and last-modified time; otherwise it is the ParameterNotFound case |
| PyStrings.Contains | argoCD_main/change_yaml.py:29 | a string that contains `sub` is at least as long as `sub`, and the empty string is contained in every string |
| PyStrings.ContainsCharacterized | argoCD_main/change_yaml.py:29 | the scan finds `sub` in `s` if and only if `sub` occurs in `s` at some index |
| Ssm.PutParameter | tf/lambda_function.py:70-75 | with Overwrite=True the named parameter becomes the new value, type and timestamp; every other parameter is unchanged |
| JoinToken.Locate | tf/lambda_function.py:37-47 | an instance is returned exactly when there is a first reservation and it has an instance, and it is the first instance of the first reservation |
| JoinToken.IsStale | tf/lambda_function.py:25 | a stale token was written in the past; a token exactly 23 hours old is not stale and one a second older is, so the comparison is strict |
| JoinToken.ShouldRotate | tf/lambda_function.py:25 | the deployed guard (`True or …`) holds for every clock and every token age; the time-gated guard holds exactly when the token is stale |
| JoinToken.Target | tf/lambda_function.py:13-16 | the handler continues only with a located id that is not empty; a missing or empty id is the 500 case |
| JoinToken.GenerateNewToken | tf/lambda_function.py:49-76 | one `send_command` of the fixed command to the given instance comes first; the call succeeds exactly when the remote command completes; on failure there is no write and the store is unchanged; on success the last call writes the stripped output under the fixed key as SecureString with overwrite; the new store is the old one replayed through the trace |
| JoinToken.Handle | tf/lambda_function.py:10-35 | the trace starts with the instance query; the store changes only through the trace's writes; at most one command and one write; 500 exactly when no usable instance; an escaping error leaves the store untouched; the only statuses are 200 and 500 |
| JoinToken.LambdaHandler | tf/lambda_function.py:10-35 | the deployed handler returns 200 if and only if it located an instance and the remote command completed, and it sends exactly one command whenever an instance is located |
| JoinToken.Rotate | tf/lambda_function.py:25-35 | after a prefix of calls that neither send nor write, exactly one command is sent; there is one write if and only if the remote command completed; the result is 200 exactly then, and otherwise the store is untouched |
| JoinTokenProperties.NoInstanceShortCircuit | tf/lambda_function.py:13-16 | with no usable instance the run is exactly status 500, only the instance query in the trace, and the same store: no read, no command, no write |
| JoinTokenProperties.LocateUsesFirstReservationOnly | tf/lambda_function.py:44-47 | later reservations never change the located instance; an empty first reservation yields none even when later ones have instances; otherwise the first instance is returned |
| JoinTokenProperties.ReadsParameterOnce | tf/lambda_function.py:18-21 | once an instance is located, the parameter is read exactly once, with decryption, right after the instance query |
| JoinTokenProperties.SendsOnceToLocatedInstance | tf/lambda_function.py:25-55 | when an instance is located, the deployed handler's third call sends the fixed kubeadm text through AWS-RunShellScript to that instance, and no other call is a send |
| JoinTokenProperties.RotationIgnoresAge | tf/lambda_function.py:25-29 | the deployed handler's outcome and trace do not change with the clock or the stored token's last-modified time, so the stale check is dead |
| JoinTokenProperties.MissingParameterRotates | tf/lambda_function.py:31-35 | a missing parameter leads to exactly one command; if that command completes the handler returns 200 and the parameter now exists |
| JoinTokenProperties.SuccessfulRotation | tf/lambda_function.py:49-76 | a completed rotation makes exactly these calls in order: query, read, send, wait, get invocation, write. The write stores the stripped output as SecureString at the run's time; no other parameter changes |
| JoinTokenProperties.WrittenTokenIsTrimmed | tf/lambda_function.py:67-75 | the stored token is the strip of the command's standard output, has no outer whitespace, and is unchanged by stripping again |
| JoinTokenProperties.RemoteFailureLeavesStore | tf/lambda_function.py:51-75 | a rejected send or a failed waiter leaves the store exactly as before, with no write, and the error (WaiterError with the command id, or the send error) escapes the handler |
| JoinTokenProperties.OkMeansWritten | tf/lambda_function.py:18-75 | a 200 from the deployed handler means the remote command completed, exactly one write happened, and the stored token is the stripped command output |
| JoinTokenProperties.TimeGatedFreshIsIdle | tf/lambda_function.py:25-29 | with the age test in force, a token at most 23 hours old leads to status 200 with no command, no write and an unchanged store |
| JoinTokenProperties.SecondRunWithinWindow | tf/lambda_function.py:25-29 | with the age test, a second run within 23 hours of a rotation sends nothing and keeps the store; the deployed handler sends again |
| YamlDoc.Index | argoCD_main/change_yaml.py:27 | subscripting succeeds exactly on a mapping holding the key; a missing key raises KeyError for that key; subscripting a non-mapping raises TypeError |
| YamlDoc.Lookup | argoCD_main/change_yaml.py:27 | the empty path yields the node itself; a step on a non-mapping raises TypeError; a missing first key raises KeyError for that key; a successful lookup went through a mapping holding the first key |
| YamlDoc.Replace | argoCD_main/change_yaml.py:27-30 | after assigning at a path, looking up the path gives the new node, and the document agrees with the old one everywhere off that path |
| YamlDoc.ReplaceWithCurrent | argoCD_main/change_yaml.py:27-33 | writing back the node already at a path leaves the document equal to itself |
| ChangeYaml.RewriteContainer | argoCD_main/change_yaml.py:29-30 | one loop step succeeds exactly for rewritable elements. A mapping gets `image` set only if it had that key, with the same keys and all other fields. Any other element is unchanged or raises TypeError |
| ChangeYaml.RewriteAll | argoCD_main/change_yaml.py:28-30 | the loop over a container list succeeds if and only if every element is rewritable; the number and order of containers are preserved and each is updated as one step does |
| ChangeYaml.RewriteContainers | argoCD_main/change_yaml.py:28-30 | iterating the containers node succeeds exactly when it is iterable without error; a list is rewritten element by element and any other node is left as it was |
| ChangeYaml.UpdateImageFromSsm | argoCD_main/change_yaml.py:15-33 | a missing parameter fails first, whatever the document; then a missing key or non-mapping on `spec.template.spec.containers` fails with that error; then a containers node the loop cannot go through fails with TypeError; otherwise the document is unchanged off the containers node, and every container with `image` gets the one parameter value |
| ChangeYaml.NoImageKeyUnchanged | argoCD_main/change_yaml.py:29 | a mapping container without `image` comes out identical; no key is added |
| ChangeYaml.UpdateIdempotent | argoCD_main/change_yaml.py:28-30 | updating the updated document again with the same parameter yields the same document |
| ChangeYaml.MissingKeyFails | argoCD_main/change_yaml.py:27 | if any of `spec`, `template`, `spec`, `containers` is missing on the way down, the update fails with KeyError for that key and produces no document |
| ChangeYaml.ImagesAgree | argoCD_main/change_yaml.py:19-30 | any two containers that had `image` now carry the same value, the one read from the parameter store |

## Left out

- AWS client construction, the region, and the real EC2, SSM and Run Command services. Their answers are inputs of the world, and the calls appear as trace entries.
- `describe_instances` filtering by the `Name` tag and the running state is done by EC2. The model takes the already-filtered reservations as input. The filter values appear only in the `DescribeInstances` trace entry.
- The waiter's polling and timeout policy. Only its end matters: success, or `WaiterError`.
- Failures of `describe_instances` (throttling, access denied), which in the code escape the handler before the instance test with no further call. Also failures of `get_parameter` other than `ParameterNotFound`, of `get_command_invocation`, and of `put_parameter`. The model takes these calls as succeeding. Writes without `Overwrite=True` are not modelled, since the handler never makes one.
- `datetime` and timezone arithmetic. Ages are integer seconds. The written parameter's last-modified time is the world's single clock reading.
- All `print` and `logging` output, `argparse`, and the `__main__` entry point.
- YAML parsing and dumping, and file reading and writing. The document is the parsed tree and the result is the tree that would be dumped. Mapping keys are strings, and key order is not modelled.
- ChangeYaml.UpdateImageFromSsm: documents are modelled as unshared trees, with no anchors, aliases or recursive nodes. `yaml.safe_load` turns an anchor and its aliases into one shared object, and the in-place `container['image'] = …` then shows at every alias, also outside `spec.template.spec.containers`. The guarantee that nothing off the containers node changes holds only for documents without aliases.
- ChangeYaml.RewriteContainers: iterating a mapping yields its keys and iterating a string yields its characters. The model decides these cases as a whole: it fails if some key contains `image`, and otherwise succeeds unchanged.
- ChangeYaml.RewriteAll: when a later container raises, Python has already rewritten the earlier ones in memory. The model returns only the error and does not keep those partial changes, because on an exception nothing is written.
- `tf/save_secrets.py` and `tf/get_secrets.py`: thin create-or-update and get wrappers over Secrets Manager with no logic of their own.
- Overlapping Lambda invocations and their last-writer-wins race. The model is sequential, one invocation at a time.
